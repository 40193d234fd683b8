/**
 The grammar productions of `happy` as functions on token streams. A loop of the
 parser is a tail-recursive function whose last argument is what the loop has
 collected so far.
 */
module HappyGrammar {
  import opened HappyAst
  import opened HappyLexer

  datatype Expectation = ExpectedSymbol(symbol: Symbol) | InContext(context: string)

  /** `ParseException`: its position, the symbol found there, and what was wanted. */
  datatype ParseError = ParseError(pos: Position, found: Symbol, wanted: Expectation)

  /**
   `Done` returns, `Thrown` raises a `ParseException` at the token that `at` starts with,
   and `Stuck` is where the code has no defined outcome: `parse_string` never leaves its
   loop on a literal that is not closed, and `parse_integer` overflows its accumulator.
   */
  datatype Outcome<+T> =
    | Done(value: T, rest: Stream)
    | Thrown(error: ParseError, at: Stream)
    | Stuck(at: Stream)
  {
    predicate IsFailure() { !Done? }

    function PropagateFailure<U>(): Outcome<U>
      requires !Done?
    {
      match this
      case Thrown(e, s) => Thrown(e, s)
      case Stuck(s) => Stuck(s)
    }

    function Extract(): (T, Stream)
      requires Done?
    {
      (value, rest)
    }
  }

  function Unexpected<T>(ts: Stream, wanted: Expectation): Outcome<T> {
    Thrown(ParseError(ts.pos, ts.Symbol(), wanted), ts)
  }

  function TakeSymbol(ts: Stream, symbol: FixedSymbol): (r: Outcome<()>)
    ensures r.Done? ==> r.rest.Size() < ts.Size()
  {
    if ts.Step? && ts.lexeme == Fixed(symbol) then Done((), ts.tail)
    else Unexpected(ts, ExpectedSymbol(symbol))
  }

  function TakeName(ts: Stream): (r: Outcome<string>)
    ensures r.Done? ==> r.rest.Size() < ts.Size()
  {
    if ts.Step? && ts.lexeme.Name? then Done(ts.lexeme.text, ts.tail)
    else Unexpected(ts, ExpectedSymbol(Identifier))
  }

  function TakeString(ts: Stream): (r: Outcome<string>)
    ensures r.Done? ==> r.rest.Size() < ts.Size()
  {
    if ts.Step? && ts.lexeme.Quoted? then Done(ts.lexeme.content, ts.tail)
    else if ts.Stop? && ts.terminal.UnclosedString? then Stuck(ts)
    else Unexpected(ts, ExpectedSymbol(String))
  }

  function TakeInteger(ts: Stream): (r: Outcome<int64>)
    ensures r.Done? ==> r.rest.Size() < ts.Size()
  {
    if ts.Step? && ts.lexeme.Whole? then Done(ts.lexeme.value, ts.tail)
    else if ts.Stop? && ts.terminal.HugeInteger? then Stuck(ts)
    else Unexpected(ts, ExpectedSymbol(Integer))
  }

  // ---------------------------------------------------------------- identifiers and types

  function QualifiedMore(ts: Stream, space: seq<string>, name: string): (r: Outcome<QualifiedIdentifier>)
    ensures r.Done? ==> r.rest.Size() <= ts.Size()
    decreases ts.Size()
  {
    if ts.Symbol() != NamespaceSep then Done(QualifiedIdentifier(space, name), ts)
    else
      var (_, ts1) :- TakeSymbol(ts, NamespaceSep);
      var (next, ts2) :- TakeName(ts1);
      QualifiedMore(ts2, space + [name], next)
  }

  function ParseQualified(ts: Stream): (r: Outcome<QualifiedIdentifier>)
    ensures r.Done? ==> r.rest.Size() < ts.Size()
  {
    var (name, ts1) :- TakeName(ts);
    QualifiedMore(ts1, [], name)
  }

  function ParseType(ts: Stream): (r: Outcome<Type>)
    ensures r.Done? ==> r.rest.Size() < ts.Size()
  {
    var (id, ts1) :- ParseQualified(ts);
    if ts1.Symbol() != BracketOpen then Done(Type(id, NotArray), ts1)
    else
      var (_, ts2) :- TakeSymbol(ts1, BracketOpen);
      var (n, ts3) :- TakeInteger(ts2);
      var (_, ts4) :- TakeSymbol(ts3, BracketClose);
      Done(Type(id, ArrayOf(n)), ts4)
  }

  /** A declaration's keyword and the identifier after it. */
  function TakeDeclared(ts: Stream, keyword: FixedSymbol): (r: Outcome<string>)
    ensures r.Done? ==> r.rest.Size() < ts.Size()
  {
    var (_, ts1) :- TakeSymbol(ts, keyword);
    TakeName(ts1)
  }

  // ---------------------------------------------------------------- structs

  function ParseStructField(ts: Stream): (r: Outcome<StructField>)
    ensures r.Done? ==> r.rest.Size() < ts.Size()
  {
    var (id, ts1) :- TakeName(ts);
    var (_, ts2) :- TakeSymbol(ts1, Colon);
    var (typ, ts3) :- ParseType(ts2);
    Done(StructField(id, typ, ts.pos), ts3)
  }

  function StructFields(ts: Stream, fields: seq<StructField>): (r: Outcome<seq<StructField>>)
    ensures r.Done? ==> r.rest.Size() <= ts.Size()
    decreases ts.Size()
  {
    if ts.Symbol() == CurlyClose then Done(fields, ts)
    else
      var (f, ts1) :- ParseStructField(ts);
      StructFields(ts1, fields + [f])
  }

  function StructBody(ts: Stream): (r: Outcome<seq<StructField>>)
    ensures r.Done? ==> r.rest.Size() < ts.Size()
  {
    var (_, ts1) :- TakeSymbol(ts, CurlyOpen);
    var (fields, ts2) :- StructFields(ts1, []);
    var (_, ts3) :- TakeSymbol(ts2, CurlyClose);
    Done(fields, ts3)
  }

  function ParseStruct(ts: Stream): (r: Outcome<Struct>)
    ensures r.Done? ==> r.rest.Size() < ts.Size()
  {
    var (id, ts1) :- TakeDeclared(ts, StructKw);
    var (fields, ts2) :- StructBody(ts1);
    Done(Struct(id, fields, ts.pos), ts2)
  }

  // ---------------------------------------------------------------- mappings

  function ParseMappingField(ts: Stream): (r: Outcome<MappingField>)
    ensures r.Done? ==> r.rest.Size() < ts.Size()
  {
    var (id, ts1) :- TakeName(ts);
    var (_, ts2) :- TakeSymbol(ts1, Colon);
    var (text, ts3) :- TakeString(ts2);
    Done(MappingField(id, text, ts.pos), ts3)
  }

  function MappingFields(ts: Stream, fields: seq<MappingField>): (r: Outcome<seq<MappingField>>)
    ensures r.Done? ==> r.rest.Size() <= ts.Size()
    decreases ts.Size()
  {
    if ts.Symbol() == CurlyClose then Done(fields, ts)
    else
      var (f, ts1) :- ParseMappingField(ts);
      MappingFields(ts1, fields + [f])
  }

  function MappingBody(ts: Stream): (r: Outcome<seq<MappingField>>)
    ensures r.Done? ==> r.rest.Size() < ts.Size()
  {
    var (_, ts1) :- TakeSymbol(ts, CurlyOpen);
    var (fields, ts2) :- MappingFields(ts1, []);
    var (_, ts3) :- TakeSymbol(ts2, CurlyClose);
    Done(fields, ts3)
  }

  /** What a mapping is for, after its colon. */
  function TakeCategory(ts: Stream): (r: Outcome<QualifiedIdentifier>)
    ensures r.Done? ==> r.rest.Size() < ts.Size()
  {
    var (_, ts1) :- TakeSymbol(ts, Colon);
    ParseQualified(ts1)
  }

  function ParseMapping(ts: Stream): (r: Outcome<Mapping>)
    ensures r.Done? ==> r.rest.Size() < ts.Size()
  {
    var (id, ts1) :- TakeDeclared(ts, MappingKw);
    var (category, ts2) :- TakeCategory(ts1);
    var (fields, ts3) :- MappingBody(ts2);
    Done(Mapping(id, category, fields, ts.pos), ts3)
  }

  // ---------------------------------------------------------------- encodings

  const DEFAULT_ENCODING := "DEFAULT"

  /** The optional `: name` after an encoding's or a field's identifier. */
  function OptionalEncoding(ts: Stream): (r: Outcome<string>)
    ensures r.Done? ==> r.rest.Size() <= ts.Size()
  {
    if ts.Symbol() != Colon then Done(DEFAULT_ENCODING, ts)
    else
      var (_, ts1) :- TakeSymbol(ts, Colon);
      TakeName(ts1)
  }

  function ParseEncodingField(ts: Stream): (r: Outcome<EncodingNode>)
    ensures r.Done? ==> r.rest.Size() < ts.Size()
  {
    var (id, ts1) :- TakeName(ts);
    var (enco, ts2) :- OptionalEncoding(ts1);
    Done(EncodingField(id, enco, ts.pos), ts2)
  }

  function ParseEncodingNode(ts: Stream): (r: Outcome<EncodingNode>)
    ensures r.Done? ==> r.rest.Size() < ts.Size()
    decreases ts.Size(), 1
  {
    if ts.Symbol() == DeltaKw then ParseDeltaBlock(ts)
    else if ts.Symbol() == Identifier then ParseEncodingField(ts)
    else Unexpected(ts, InContext("encoding_node"))
  }

  function EncodingNodes(ts: Stream, nodes: seq<EncodingNode>): (r: Outcome<seq<EncodingNode>>)
    ensures r.Done? ==> r.rest.Size() <= ts.Size()
    decreases ts.Size(), 2
  {
    if ts.Symbol() == CurlyClose then Done(nodes, ts)
    else
      var (n, ts1) :- ParseEncodingNode(ts);
      EncodingNodes(ts1, nodes + [n])
  }

  function EncodingBody(ts: Stream): (r: Outcome<seq<EncodingNode>>)
    ensures r.Done? ==> r.rest.Size() < ts.Size()
    decreases ts.Size(), 0
  {
    var (_, ts1) :- TakeSymbol(ts, CurlyOpen);
    var (fields, ts2) :- EncodingNodes(ts1, []);
    var (_, ts3) :- TakeSymbol(ts2, CurlyClose);
    Done(fields, ts3)
  }

  function ParseDeltaBlock(ts: Stream): (r: Outcome<EncodingNode>)
    ensures r.Done? ==> r.rest.Size() < ts.Size()
    decreases ts.Size(), 0
  {
    var (_, ts1) :- TakeSymbol(ts, DeltaKw);
    if ts1.Symbol() == Identifier then
      var (n, ts2) :- ParseEncodingNode(ts1);
      Done(DeltaBlock([n], ts.pos), ts2)
    else if ts1.Symbol() == CurlyOpen then
      var (nodes, ts2) :- EncodingBody(ts1);
      Done(DeltaBlock(nodes, ts.pos), ts2)
    else Unexpected(ts1, InContext("encoding_delta_block"))
  }

  function ParseEncoding(ts: Stream): (r: Outcome<Encoding>)
    ensures r.Done? ==> r.rest.Size() < ts.Size()
  {
    var (id, ts1) :- TakeDeclared(ts, EncodingKw);
    var (enco, ts2) :- OptionalEncoding(ts1);
    var (nodes, ts3) :- EncodingBody(ts2);
    Done(Encoding(id, enco, nodes, ts.pos), ts3)
  }

  // ---------------------------------------------------------------- documents

  function ParseInclude(ts: Stream): (r: Outcome<Include>)
    ensures r.Done? ==> r.rest.Size() < ts.Size()
  {
    var (_, ts1) :- TakeSymbol(ts, IncludeKw);
    var (path, ts2) :- TakeString(ts1);
    Done(Include(path, ts.pos), ts2)
  }

  function Includes(ts: Stream, root: Root): (r: Outcome<Root>)
    ensures r.Done? ==> r.rest.Size() <= ts.Size()
    decreases ts.Size()
  {
    if ts.Symbol() != IncludeKw then Done(root, ts)
    else
      var (i, ts1) :- ParseInclude(ts);
      Includes(ts1, root.(includes := root.includes + [i]))
  }

  function OptionalNamespace(ts: Stream, root: Root): (r: Outcome<Root>)
    ensures r.Done? ==> r.rest.Size() <= ts.Size()
  {
    if ts.Symbol() != NamespaceKw then Done(root, ts)
    else
      var (_, ts1) :- TakeSymbol(ts, NamespaceKw);
      var (space, ts2) :- ParseQualified(ts1);
      Done(root.(space := space), ts2)
  }

  function Declarations(ts: Stream, root: Root): (r: Outcome<Root>)
    ensures r.Done? ==> r.rest.Size() <= ts.Size()
    decreases ts.Size()
  {
    if ts.Symbol() == StructKw then
      var (d, ts1) :- ParseStruct(ts);
      Declarations(ts1, root.(structs := root.structs + [d]))
    else if ts.Symbol() == MappingKw then
      var (d, ts1) :- ParseMapping(ts);
      Declarations(ts1, root.(mappings := root.mappings + [d]))
    else if ts.Symbol() == EncodingKw then
      var (d, ts1) :- ParseEncoding(ts);
      Declarations(ts1, root.(encodings := root.encodings + [d]))
    else if ts.Symbol() == Eof then Done(root, ts)
    else Unexpected(ts, InContext("document"))
  }

  /** Everything before the declarations. */
  function Header(ts: Stream, root: Root): Outcome<Root> {
    var (root1, ts1) :- Includes(ts, root);
    OptionalNamespace(ts1, root1)
  }

  function ParseDocument(ts: Stream, origin: Position): Outcome<Root> {
    var (root, ts1) :- Header(ts, EmptyRoot(origin));
    Declarations(ts1, root)
  }

  /** The whole front end on one text. */
  function ParseText(file: string, text: string): Outcome<Root> {
    ParseDocument(Tokens(Start(file, text)), Start(file, text).pos)
  }
}
