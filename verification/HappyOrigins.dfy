/**
 Positions never influence a parse: forgetting the positions of the tokens first and
 parsing then gives the outcome of parsing with the positions forgotten afterwards.
 */
module HappyOrigins {
  import opened HappyAst
  import opened HappyLexer
  import opened HappyGrammar

  const NOWHERE := Position("", 0, 0)

  function Forget(ts: Stream): (r: Stream)
    ensures r.Symbol() == ts.Symbol() && r.pos == NOWHERE
    ensures r.Size() == ts.Size()
  {
    match ts
    case Stop(t, _) => Stop(t, NOWHERE)
    case Step(l, _, tail) => Step(l, NOWHERE, Forget(tail))
  }

  function ForgetStructField(f: StructField): StructField { f.(origin := NOWHERE) }

  function ForgetStructFields(fs: seq<StructField>): seq<StructField> {
    seq(|fs|, i requires 0 <= i < |fs| => ForgetStructField(fs[i]))
  }

  function ForgetStruct(s: Struct): Struct {
    s.(fields := ForgetStructFields(s.fields), origin := NOWHERE)
  }

  function ForgetMappingField(f: MappingField): MappingField { f.(origin := NOWHERE) }

  function ForgetMappingFields(fs: seq<MappingField>): seq<MappingField> {
    seq(|fs|, i requires 0 <= i < |fs| => ForgetMappingField(fs[i]))
  }

  function ForgetMapping(m: Mapping): Mapping {
    m.(fields := ForgetMappingFields(m.fields), origin := NOWHERE)
  }

  function ForgetNode(n: EncodingNode): EncodingNode {
    match n
    case EncodingField(id, enco, _) => EncodingField(id, enco, NOWHERE)
    case DeltaBlock(fields, _) =>
      DeltaBlock(seq(|fields|, i requires 0 <= i < |fields| => ForgetNode(fields[i])), NOWHERE)
  }

  function ForgetNodes(ns: seq<EncodingNode>): seq<EncodingNode> {
    seq(|ns|, i requires 0 <= i < |ns| => ForgetNode(ns[i]))
  }

  function ForgetEncoding(e: Encoding): Encoding {
    e.(fields := ForgetNodes(e.fields), origin := NOWHERE)
  }

  function ForgetInclude(i: Include): Include { i.(origin := NOWHERE) }

  function ForgetRoot(r: Root): Root {
    Root(
      seq(|r.includes|, i requires 0 <= i < |r.includes| => ForgetInclude(r.includes[i])),
      r.space,
      seq(|r.structs|, i requires 0 <= i < |r.structs| => ForgetStruct(r.structs[i])),
      seq(|r.mappings|, i requires 0 <= i < |r.mappings| => ForgetMapping(r.mappings[i])),
      seq(|r.encodings|, i requires 0 <= i < |r.encodings| => ForgetEncoding(r.encodings[i])),
      NOWHERE)
  }

  function ForgetOutcome<T>(o: Outcome<T>, f: T -> T): Outcome<T> {
    match o
    case Done(v, rest) => Done(f(v), Forget(rest))
    case Thrown(e, at) => Thrown(e.(pos := NOWHERE), Forget(at))
    case Stuck(at) => Stuck(Forget(at))
  }

  /** The same for outcomes whose value holds no positions. */
  function ForgetPlaces<T>(o: Outcome<T>): Outcome<T> {
    match o
    case Done(v, rest) => Done(v, Forget(rest))
    case Thrown(e, at) => Thrown(e.(pos := NOWHERE), Forget(at))
    case Stuck(at) => Stuck(Forget(at))
  }

  // ---------------------------------------------------------------- productions

  lemma SymbolForgets(ts: Stream, s: FixedSymbol)
    ensures TakeSymbol(Forget(ts), s) == ForgetPlaces(TakeSymbol(ts, s))
  {
  }

  lemma NameForgets(ts: Stream)
    ensures TakeName(Forget(ts)) == ForgetPlaces(TakeName(ts))
  {
  }

  lemma StringForgets(ts: Stream)
    ensures TakeString(Forget(ts)) == ForgetPlaces(TakeString(ts))
  {
  }

  lemma IntegerForgets(ts: Stream)
    ensures TakeInteger(Forget(ts)) == ForgetPlaces(TakeInteger(ts))
  {
  }

  lemma DeclaredForgets(ts: Stream, keyword: FixedSymbol)
    ensures TakeDeclared(Forget(ts), keyword) == ForgetPlaces(TakeDeclared(ts, keyword))
  {
    SymbolForgets(ts, keyword);
    var o := TakeSymbol(ts, keyword);
    if o.Done? {
      NameForgets(o.rest);
    }
  }

  lemma {:induction false} QualifiedMoreForgets(ts: Stream, space: seq<string>, name: string)
    ensures QualifiedMore(Forget(ts), space, name) == ForgetPlaces(QualifiedMore(ts, space, name))
    decreases ts.Size()
  {
    if ts.Symbol() == NamespaceSep {
      NameForgets(ts.tail);
      var o := TakeName(ts.tail);
      if o.Done? {
        QualifiedMoreForgets(o.rest, space + [name], o.value);
      }
    }
  }

  lemma {:induction false} QualifiedForgets(ts: Stream)
    ensures ParseQualified(Forget(ts)) == ForgetPlaces(ParseQualified(ts))
  {
    if ts.Step? && ts.lexeme.Name? {
      QualifiedMoreForgets(ts.tail, [], ts.lexeme.text);
    }
  }

  lemma {:induction false} TypeForgets(ts: Stream)
    ensures ParseType(Forget(ts)) == ForgetPlaces(ParseType(ts))
  {
    QualifiedForgets(ts);
    var q := ParseQualified(ts);
    if q.IsFailure() || q.rest.Symbol() != BracketOpen { return; }
    var ts2 := q.rest.tail;
    IntegerForgets(ts2);
    var n := TakeInteger(ts2);
    if n.IsFailure() { return; }
    SymbolForgets(n.rest, BracketClose);
  }

  lemma {:induction false} StructFieldForgets(ts: Stream)
    ensures ParseStructField(Forget(ts)) == ForgetOutcome(ParseStructField(ts), ForgetStructField)
  {
    NameForgets(ts);
    var o1 := TakeName(ts);
    if o1.IsFailure() { return; }
    SymbolForgets(o1.rest, Colon);
    var o2 := TakeSymbol(o1.rest, Colon);
    if o2.IsFailure() { return; }
    TypeForgets(o2.rest);
  }

  lemma {:induction false} StructFieldsForget(ts: Stream, done: seq<StructField>)
    ensures StructFields(Forget(ts), ForgetStructFields(done)) == ForgetOutcome(StructFields(ts, done), ForgetStructFields)
    decreases ts.Size()
  {
    StructFieldForgets(ts);
    var r := ParseStructField(ts);
    if ts.Symbol() != CurlyClose && r.Done? {
      StructFieldsForget(r.rest, done + [r.value]);
      assert ForgetStructFields(done + [r.value]) == ForgetStructFields(done) + [ForgetStructField(r.value)];
    }
  }

  lemma {:induction false} StructBodyForgets(ts: Stream)
    ensures StructBody(Forget(ts)) == ForgetOutcome(StructBody(ts), ForgetStructFields)
  {
    SymbolForgets(ts, CurlyOpen);
    var o1 := TakeSymbol(ts, CurlyOpen);
    if o1.IsFailure() { return; }
    assert ForgetStructFields([]) == [];
    StructFieldsForget(o1.rest, []);
    var o2 := StructFields(o1.rest, []);
    if o2.IsFailure() { return; }
    SymbolForgets(o2.rest, CurlyClose);
  }

  lemma {:induction false} StructForgets(ts: Stream)
    ensures ParseStruct(Forget(ts)) == ForgetOutcome(ParseStruct(ts), ForgetStruct)
  {
    DeclaredForgets(ts, StructKw);
    var o2 := TakeDeclared(ts, StructKw);
    if o2.IsFailure() { return; }
    StructBodyForgets(o2.rest);
  }

  lemma {:induction false} MappingFieldForgets(ts: Stream)
    ensures ParseMappingField(Forget(ts)) == ForgetOutcome(ParseMappingField(ts), ForgetMappingField)
  {
    NameForgets(ts);
    var o1 := TakeName(ts);
    if o1.IsFailure() { return; }
    SymbolForgets(o1.rest, Colon);
    var o2 := TakeSymbol(o1.rest, Colon);
    if o2.IsFailure() { return; }
    StringForgets(o2.rest);
  }

  lemma {:induction false} MappingFieldsForget(ts: Stream, done: seq<MappingField>)
    ensures MappingFields(Forget(ts), ForgetMappingFields(done)) == ForgetOutcome(MappingFields(ts, done), ForgetMappingFields)
    decreases ts.Size()
  {
    MappingFieldForgets(ts);
    var r := ParseMappingField(ts);
    if ts.Symbol() != CurlyClose && r.Done? {
      MappingFieldsForget(r.rest, done + [r.value]);
      assert ForgetMappingFields(done + [r.value]) == ForgetMappingFields(done) + [ForgetMappingField(r.value)];
    }
  }

  lemma {:induction false} MappingBodyForgets(ts: Stream)
    ensures MappingBody(Forget(ts)) == ForgetOutcome(MappingBody(ts), ForgetMappingFields)
  {
    SymbolForgets(ts, CurlyOpen);
    var o1 := TakeSymbol(ts, CurlyOpen);
    if o1.IsFailure() { return; }
    assert ForgetMappingFields([]) == [];
    MappingFieldsForget(o1.rest, []);
    var o2 := MappingFields(o1.rest, []);
    if o2.IsFailure() { return; }
    SymbolForgets(o2.rest, CurlyClose);
  }

  lemma {:induction false} CategoryForgets(ts: Stream)
    ensures TakeCategory(Forget(ts)) == ForgetPlaces(TakeCategory(ts))
  {
    SymbolForgets(ts, Colon);
    var o := TakeSymbol(ts, Colon);
    if o.Done? {
      QualifiedForgets(o.rest);
    }
  }

  lemma {:induction false} MappingForgets(ts: Stream)
    ensures ParseMapping(Forget(ts)) == ForgetOutcome(ParseMapping(ts), ForgetMapping)
  {
    DeclaredForgets(ts, MappingKw);
    var o2 := TakeDeclared(ts, MappingKw);
    assert TakeDeclared(Forget(ts), MappingKw) == ForgetPlaces(o2);
    if o2.IsFailure() { return; }
    CategoryForgets(o2.rest);
    var o3 := TakeCategory(o2.rest);
    assert TakeCategory(Forget(o2.rest)) == ForgetPlaces(o3);
    if o3.IsFailure() { return; }
    MappingBodyForgets(o3.rest);
    assert MappingBody(Forget(o3.rest)) == ForgetOutcome(MappingBody(o3.rest), ForgetMappingFields);
  }

  lemma {:induction false} OptionalEncodingForgets(ts: Stream)
    ensures OptionalEncoding(Forget(ts)) == ForgetPlaces(OptionalEncoding(ts))
  {
  }

  lemma {:induction false} EncodingFieldForgets(ts: Stream)
    ensures ParseEncodingField(Forget(ts)) == ForgetOutcome(ParseEncodingField(ts), ForgetNode)
  {
    if ts.Step? {
      OptionalEncodingForgets(ts.tail);
    }
  }

  lemma {:induction false} EncodingNodeForgets(ts: Stream)
    ensures ParseEncodingNode(Forget(ts)) == ForgetOutcome(ParseEncodingNode(ts), ForgetNode)
    decreases ts.Size(), 1
  {
    if ts.Symbol() == DeltaKw {
      DeltaBlockForgets(ts);
    } else {
      EncodingFieldForgets(ts);
    }
  }

  lemma {:induction false} EncodingBodyForgets(ts: Stream)
    ensures EncodingBody(Forget(ts)) == ForgetOutcome(EncodingBody(ts), ForgetNodes)
    decreases ts.Size(), 0
  {
    SymbolForgets(ts, CurlyOpen);
    var o1 := TakeSymbol(ts, CurlyOpen);
    if o1.IsFailure() { return; }
    assert ForgetNodes([]) == [];
    EncodingNodesForget(o1.rest, []);
    var o2 := EncodingNodes(o1.rest, []);
    if o2.IsFailure() { return; }
    SymbolForgets(o2.rest, CurlyClose);
  }

  lemma {:induction false} DeltaBlockForgets(ts: Stream)
    requires ts.Symbol() == DeltaKw
    ensures ParseDeltaBlock(Forget(ts)) == ForgetOutcome(ParseDeltaBlock(ts), ForgetNode)
    decreases ts.Size(), 0
  {
    var ts1 := ts.tail;
    if ts1.Symbol() == Identifier {
      EncodingNodeForgets(ts1);
      var o := ParseEncodingNode(ts1);
      if o.Done? {
        assert ForgetNode(DeltaBlock([o.value], ts.pos)) == DeltaBlock([ForgetNode(o.value)], NOWHERE);
      }
    } else if ts1.Symbol() == CurlyOpen {
      EncodingBodyForgets(ts1);
    }
  }

  lemma {:induction false} EncodingNodesForget(ts: Stream, done: seq<EncodingNode>)
    ensures EncodingNodes(Forget(ts), ForgetNodes(done)) == ForgetOutcome(EncodingNodes(ts, done), ForgetNodes)
    decreases ts.Size(), 2
  {
    EncodingNodeForgets(ts);
    var r := ParseEncodingNode(ts);
    if ts.Symbol() != CurlyClose && r.Done? {
      EncodingNodesForget(r.rest, done + [r.value]);
      assert ForgetNodes(done + [r.value]) == ForgetNodes(done) + [ForgetNode(r.value)];
    }
  }

  lemma {:induction false} EncodingForgets(ts: Stream)
    ensures ParseEncoding(Forget(ts)) == ForgetOutcome(ParseEncoding(ts), ForgetEncoding)
  {
    DeclaredForgets(ts, EncodingKw);
    var o2 := TakeDeclared(ts, EncodingKw);
    if o2.IsFailure() { return; }
    OptionalEncodingForgets(o2.rest);
    var o3 := OptionalEncoding(o2.rest);
    if o3.IsFailure() { return; }
    EncodingBodyForgets(o3.rest);
  }

  // ---------------------------------------------------------------- documents

  lemma {:induction false} IncludesForget(ts: Stream, root: Root)
    ensures Includes(Forget(ts), ForgetRoot(root)) == ForgetOutcome(Includes(ts, root), ForgetRoot)
    decreases ts.Size()
  {
    var r := ParseInclude(ts);
    if ts.Symbol() == IncludeKw && r.Done? {
      var next := root.(includes := root.includes + [r.value]);
      IncludesForget(r.rest, next);
      assert ForgetRoot(next).includes == ForgetRoot(root).includes + [ForgetInclude(r.value)];
    }
  }

  lemma {:induction false} OptionalNamespaceForgets(ts: Stream, root: Root)
    ensures OptionalNamespace(Forget(ts), ForgetRoot(root)) == ForgetOutcome(OptionalNamespace(ts, root), ForgetRoot)
  {
    if ts.Symbol() == NamespaceKw {
      QualifiedForgets(ts.tail);
    }
  }

  lemma {:induction false} HeaderForgets(ts: Stream, root: Root)
    ensures Header(Forget(ts), ForgetRoot(root)) == ForgetOutcome(Header(ts, root), ForgetRoot)
  {
    IncludesForget(ts, root);
    var r := Includes(ts, root);
    if r.Done? {
      OptionalNamespaceForgets(r.rest, r.value);
    }
  }

  lemma ForgetWithStruct(root: Root, d: Struct)
    ensures ForgetRoot(root.(structs := root.structs + [d]))
            == ForgetRoot(root).(structs := ForgetRoot(root).structs + [ForgetStruct(d)])
  {
    assert ForgetRoot(root.(structs := root.structs + [d])).structs == ForgetRoot(root).structs + [ForgetStruct(d)];
  }

  lemma ForgetWithMapping(root: Root, d: Mapping)
    ensures ForgetRoot(root.(mappings := root.mappings + [d]))
            == ForgetRoot(root).(mappings := ForgetRoot(root).mappings + [ForgetMapping(d)])
  {
    assert ForgetRoot(root.(mappings := root.mappings + [d])).mappings == ForgetRoot(root).mappings + [ForgetMapping(d)];
  }

  lemma ForgetWithEncoding(root: Root, d: Encoding)
    ensures ForgetRoot(root.(encodings := root.encodings + [d]))
            == ForgetRoot(root).(encodings := ForgetRoot(root).encodings + [ForgetEncoding(d)])
  {
    assert ForgetRoot(root.(encodings := root.encodings + [d])).encodings
        == ForgetRoot(root).encodings + [ForgetEncoding(d)];
  }

  lemma {:induction false} DeclarationsForget(ts: Stream, root: Root)
    ensures Declarations(Forget(ts), ForgetRoot(root)) == ForgetOutcome(Declarations(ts, root), ForgetRoot)
    decreases ts.Size()
  {
    if ts.Symbol() == StructKw {
      StructForgets(ts);
      var r := ParseStruct(ts);
      if r.Done? {
        DeclarationsForget(r.rest, root.(structs := root.structs + [r.value]));
        ForgetWithStruct(root, r.value);
      }
    } else if ts.Symbol() == MappingKw {
      MappingForgets(ts);
      var r := ParseMapping(ts);
      if r.Done? {
        DeclarationsForget(r.rest, root.(mappings := root.mappings + [r.value]));
        ForgetWithMapping(root, r.value);
      }
    } else if ts.Symbol() == EncodingKw {
      EncodingForgets(ts);
      var r := ParseEncoding(ts);
      if r.Done? {
        DeclarationsForget(r.rest, root.(encodings := root.encodings + [r.value]));
        ForgetWithEncoding(root, r.value);
      }
    }
  }

  /** Parsing commutes with forgetting positions. */
  lemma {:induction false} DocumentForgets(ts: Stream, origin: Position)
    ensures ParseDocument(Forget(ts), NOWHERE) == ForgetOutcome(ParseDocument(ts, origin), ForgetRoot)
  {
    HeaderForgets(ts, EmptyRoot(origin));
    assert ForgetRoot(EmptyRoot(origin)) == EmptyRoot(NOWHERE);
    var r := Header(ts, EmptyRoot(origin));
    if r.Done? {
      DeclarationsForget(r.rest, r.value);
    }
  }

  /** Two streams that differ in positions only are parsed to outcomes that differ in positions only. */
  lemma {:induction false} PositionsDoNotMatter(ts: Stream, origin: Position, ts': Stream, origin': Position)
    requires Forget(ts) == Forget(ts')
    ensures ForgetOutcome(ParseDocument(ts, origin), ForgetRoot) == ForgetOutcome(ParseDocument(ts', origin'), ForgetRoot)
  {
    DocumentForgets(ts, origin);
    DocumentForgets(ts', origin');
  }
}
