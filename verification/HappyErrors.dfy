/**
 A parse error is decided by the tokens up to the one it points at: whatever comes after them, the same
 error is raised, so no document of the grammar starts that way.
 */
module HappyErrors {
  import opened HappyAst
  import opened HappyLexer
  import opened HappyGrammar
  import opened HappyPositions
  import HappySyntax

  /**
   The tokens of ts before its tail `at` also start us, and are followed there by a token of the same
   symbol at the same position as the first one of `at`.
   */
  predicate Shares(ts: Stream, us: Stream, at: Stream) {
    ts.pos == us.pos && ts.Symbol() == us.Symbol()
    && (ts == at || (ts.Step? && us.Step? && ts.lexeme == us.lexeme && Shares(ts.tail, us.tail, at)))
  }

  /** The outcome depends on no token after the first one of `at`. */
  predicate Decided<T>(at: Stream, o: Outcome<T>) {
    (o.Done? && TailOf(at, o.rest)) || (o.Thrown? && o.at == at)
  }

  /** If the first outcome is decided at `at`, the second is the same. */
  predicate Settled<T(==)>(at: Stream, o: Outcome<T>, p: Outcome<T>) {
    Decided(at, o) ==>
      if o.Done? then p.Done? && p.value == o.value && Shares(o.rest, p.rest, at)
      else p.Thrown? && p.error == o.error
  }

  lemma {:induction false} NotItsTail(ts: Stream)
    requires ts.Step?
    ensures !TailOf(ts, ts.tail)
  {
    if TailOf(ts, ts.tail) {
      TailIsSmaller(ts, ts.tail);
    }
  }

  lemma {:induction false} TailIsSmaller(at: Stream, ts: Stream)
    requires TailOf(at, ts)
    ensures at.Size() <= ts.Size()
  {
    if at != ts {
      TailIsSmaller(at, ts.tail);
    }
  }

  /** Past a token that comes before `at`, the rest is still shared. */
  lemma SharesTail(ts: Stream, us: Stream, at: Stream)
    requires Shares(ts, us, at) && ts.Step? && TailOf(at, ts.tail)
    ensures us.Step? && us.lexeme == ts.lexeme && Shares(ts.tail, us.tail, at)
  {
    NotItsTail(ts);
  }

  /** What is decided in a later part is decided after the earlier one. */
  lemma DecidedLater<T>(at: Stream, mid: Stream, o: Outcome<T>)
    requires Placed(mid, o) && Decided(at, o)
    ensures TailOf(at, mid)
  {
    if o.Done? {
      TailTransitive(at, o.rest, mid);
    }
  }

  /** Which tokens a symbol can stand for. */
  lemma SymbolTells(ts: Stream)
    ensures ts.Symbol() == Identifier <==> ts.Step? && ts.lexeme.Name?
    ensures ts.Symbol() == String <==> (ts.Step? && ts.lexeme.Quoted?) || (ts.Stop? && ts.terminal.UnclosedString?)
    ensures ts.Symbol() == Integer <==> (ts.Step? && ts.lexeme.Whole?) || (ts.Stop? && ts.terminal.HugeInteger?)
    ensures IsFixed(ts.Symbol()) <==> ts.Step? && ts.lexeme.Fixed?
  {
  }

  lemma SymbolSettled(ts: Stream, us: Stream, at: Stream, s: FixedSymbol)
    requires Shares(ts, us, at)
    ensures Settled(at, TakeSymbol(ts, s), TakeSymbol(us, s))
  {
    SymbolTells(ts);
    SymbolTells(us);
    if ts.Step? && TailOf(at, ts.tail) {
      SharesTail(ts, us, at);
    }
  }

  lemma NameSettled(ts: Stream, us: Stream, at: Stream)
    requires Shares(ts, us, at)
    ensures Settled(at, TakeName(ts), TakeName(us))
  {
    SymbolTells(ts);
    SymbolTells(us);
    if ts.Step? && TailOf(at, ts.tail) {
      SharesTail(ts, us, at);
    }
  }

  lemma StringSettled(ts: Stream, us: Stream, at: Stream)
    requires Shares(ts, us, at)
    ensures Settled(at, TakeString(ts), TakeString(us))
  {
    SymbolTells(ts);
    SymbolTells(us);
    if ts.Step? && TailOf(at, ts.tail) {
      SharesTail(ts, us, at);
    }
  }

  lemma IntegerSettled(ts: Stream, us: Stream, at: Stream)
    requires Shares(ts, us, at)
    ensures Settled(at, TakeInteger(ts), TakeInteger(us))
  {
    SymbolTells(ts);
    SymbolTells(us);
    if ts.Step? && TailOf(at, ts.tail) {
      SharesTail(ts, us, at);
    }
  }

  lemma {:induction false} QualifiedMoreSettled(ts: Stream, us: Stream, at: Stream, space: seq<string>, name: string)
    requires Shares(ts, us, at)
    ensures Settled(at, QualifiedMore(ts, space, name), QualifiedMore(us, space, name))
    decreases ts.Size()
  {
    if ts.Symbol() != NamespaceSep || !Decided(at, QualifiedMore(ts, space, name)) { return; }
    var o := TakeName(ts.tail);
    if o.IsFailure() {
      DecidedLater(at, ts.tail, o);
      SharesTail(ts, us, at);
      NameSettled(ts.tail, us.tail, at);
      return;
    }
    QualifiedMorePlaced(o.rest, space + [name], o.value);
    DecidedLater(at, o.rest, QualifiedMore(o.rest, space + [name], o.value));
    SharesTail(ts, us, at);
    SharesTail(ts.tail, us.tail, at);
    QualifiedMoreSettled(o.rest, us.tail.tail, at, space + [name], o.value);
  }

  lemma {:induction false} QualifiedSettled(ts: Stream, us: Stream, at: Stream)
    requires Shares(ts, us, at)
    ensures Settled(at, ParseQualified(ts), ParseQualified(us))
  {
    if !Decided(at, ParseQualified(ts)) || TakeName(ts).IsFailure() { return; }
    var o := TakeName(ts);
    QualifiedMorePlaced(o.rest, [], o.value);
    DecidedLater(at, o.rest, QualifiedMore(o.rest, [], o.value));
    SharesTail(ts, us, at);
    QualifiedMoreSettled(o.rest, us.tail, at, [], o.value);
  }

  /** The optional array size of a type. */
  function ArrayPart(ts: Stream): Outcome<ArraySize> {
    if ts.Symbol() != BracketOpen then Done(NotArray, ts)
    else
      var (_, ts1) :- TakeSymbol(ts, BracketOpen);
      var (n, ts2) :- TakeInteger(ts1);
      var (_, ts3) :- TakeSymbol(ts2, BracketClose);
      Done(ArrayOf(n), ts3)
  }

  lemma TypeIsTwoParts(ts: Stream)
    ensures ParseType(ts) == var (id, ts1) :- ParseQualified(ts);
                             var (size, ts2) :- ArrayPart(ts1);
                             Done(Type(id, size), ts2)
  {
  }

  lemma {:induction false} ArrayPartPlaced(ts: Stream)
    ensures Placed(ts, ArrayPart(ts))
  {
    if ts.Symbol() != BracketOpen { return; }
    Later(ts, ts.tail, TakeInteger(ts.tail));
    var n := TakeInteger(ts.tail);
    if n.Done? {
      Later(ts, n.rest, TakeSymbol(n.rest, BracketClose));
    }
  }

  lemma {:induction false} ArrayPartSettled(ts: Stream, us: Stream, at: Stream)
    requires Shares(ts, us, at)
    ensures Settled(at, ArrayPart(ts), ArrayPart(us))
  {
    if !Decided(at, ArrayPart(ts)) || ts.Symbol() != BracketOpen { return; }
    SymbolSettled(ts, us, at, BracketOpen);
    var o1 := TakeInteger(ts.tail);
    if o1.IsFailure() {
      SharesTail(ts, us, at);
      IntegerSettled(ts.tail, us.tail, at);
      return;
    }
    var o2 := TakeSymbol(o1.rest, BracketClose);
    DecidedLater(at, o1.rest, o2);
    SharesTail(ts, us, at);
    IntegerSettled(ts.tail, us.tail, at);
    SymbolSettled(o1.rest, TakeInteger(us.tail).rest, at, BracketClose);
  }

  lemma {:induction false} TypeSettled(ts: Stream, us: Stream, at: Stream)
    requires Shares(ts, us, at)
    ensures Settled(at, ParseType(ts), ParseType(us))
  {
    TypeIsTwoParts(ts);
    TypeIsTwoParts(us);
    if !Decided(at, ParseType(ts)) { return; }
    QualifiedSettled(ts, us, at);
    var o := ParseQualified(ts);
    if o.IsFailure() { return; }
    ArrayPartPlaced(o.rest);
    DecidedLater(at, o.rest, ArrayPart(o.rest));
    ArrayPartSettled(o.rest, ParseQualified(us).rest, at);
  }

  lemma {:induction false} DeclaredSettled(ts: Stream, us: Stream, at: Stream, s: FixedSymbol)
    requires Shares(ts, us, at)
    ensures Settled(at, TakeDeclared(ts, s), TakeDeclared(us, s))
  {
    if !Decided(at, TakeDeclared(ts, s)) { return; }
    var o1 := TakeSymbol(ts, s);
    if o1.IsFailure() {
      SymbolSettled(ts, us, at, s);
      return;
    }
    var o2 := TakeName(o1.rest);
    DecidedLater(at, o1.rest, o2);
    SymbolSettled(ts, us, at, s);
    var p1 := TakeSymbol(us, s);
    NameSettled(o1.rest, p1.rest, at);
  }

  lemma {:induction false} CategorySettled(ts: Stream, us: Stream, at: Stream)
    requires Shares(ts, us, at)
    ensures Settled(at, TakeCategory(ts), TakeCategory(us))
  {
    if !Decided(at, TakeCategory(ts)) { return; }
    var o1 := TakeSymbol(ts, Colon);
    if o1.IsFailure() {
      SymbolSettled(ts, us, at, Colon);
      return;
    }
    var o2 := ParseQualified(o1.rest);
    QualifiedPlaced(o1.rest);
    DecidedLater(at, o1.rest, o2);
    SymbolSettled(ts, us, at, Colon);
    var p1 := TakeSymbol(us, Colon);
    QualifiedSettled(o1.rest, p1.rest, at);
  }

  lemma {:induction false} StructFieldSettled(ts: Stream, us: Stream, at: Stream)
    requires Shares(ts, us, at)
    ensures Settled(at, ParseStructField(ts), ParseStructField(us))
  {
    if !Decided(at, ParseStructField(ts)) { return; }
    var o1 := TakeName(ts);
    if o1.IsFailure() {
      NameSettled(ts, us, at);
      return;
    }
    var o2 := TakeSymbol(o1.rest, Colon);
    if o2.IsFailure() {
      DecidedLater(at, o1.rest, o2);
      NameSettled(ts, us, at);
      var p1 := TakeName(us);
      SymbolSettled(o1.rest, p1.rest, at, Colon);
      return;
    }
    var o3 := ParseType(o2.rest);
    TypePlaced(o2.rest);
    DecidedLater(at, o2.rest, o3);
    TailTransitive(at, o2.rest, o1.rest);
    NameSettled(ts, us, at);
    var p1 := TakeName(us);
    SymbolSettled(o1.rest, p1.rest, at, Colon);
    var p2 := TakeSymbol(p1.rest, Colon);
    TypeSettled(o2.rest, p2.rest, at);
  }

  lemma {:induction false} MappingFieldSettled(ts: Stream, us: Stream, at: Stream)
    requires Shares(ts, us, at)
    ensures Settled(at, ParseMappingField(ts), ParseMappingField(us))
  {
    if !Decided(at, ParseMappingField(ts)) { return; }
    var o1 := TakeName(ts);
    if o1.IsFailure() {
      NameSettled(ts, us, at);
      return;
    }
    var o2 := TakeSymbol(o1.rest, Colon);
    if o2.IsFailure() {
      DecidedLater(at, o1.rest, o2);
      NameSettled(ts, us, at);
      var p1 := TakeName(us);
      SymbolSettled(o1.rest, p1.rest, at, Colon);
      return;
    }
    var o3 := TakeString(o2.rest);
    DecidedLater(at, o2.rest, o3);
    TailTransitive(at, o2.rest, o1.rest);
    NameSettled(ts, us, at);
    var p1 := TakeName(us);
    SymbolSettled(o1.rest, p1.rest, at, Colon);
    var p2 := TakeSymbol(p1.rest, Colon);
    StringSettled(o2.rest, p2.rest, at);
  }

  lemma {:induction false} StructFieldsSettled(ts: Stream, us: Stream, at: Stream, done: seq<StructField>)
    requires Shares(ts, us, at)
    ensures Settled(at, StructFields(ts, done), StructFields(us, done))
    decreases ts.Size()
  {
    if ts.Symbol() == CurlyClose || !Decided(at, StructFields(ts, done)) { return; }
    var o := ParseStructField(ts);
    StructFieldSettled(ts, us, at);
    if o.IsFailure() { return; }
    var next := done + [o.value];
    StructFieldsPlaced(o.rest, next);
    DecidedLater(at, o.rest, StructFields(o.rest, next));
    StructFieldsSettled(o.rest, ParseStructField(us).rest, at, next);
  }

  lemma {:induction false} MappingFieldsSettled(ts: Stream, us: Stream, at: Stream, done: seq<MappingField>)
    requires Shares(ts, us, at)
    ensures Settled(at, MappingFields(ts, done), MappingFields(us, done))
    decreases ts.Size()
  {
    if ts.Symbol() == CurlyClose || !Decided(at, MappingFields(ts, done)) { return; }
    var o := ParseMappingField(ts);
    MappingFieldSettled(ts, us, at);
    if o.IsFailure() { return; }
    var next := done + [o.value];
    MappingFieldsPlaced(o.rest, next);
    DecidedLater(at, o.rest, MappingFields(o.rest, next));
    MappingFieldsSettled(o.rest, ParseMappingField(us).rest, at, next);
  }

  lemma {:induction false} StructBodySettled(ts: Stream, us: Stream, at: Stream)
    requires Shares(ts, us, at)
    ensures Settled(at, StructBody(ts), StructBody(us))
  {
    if !Decided(at, StructBody(ts)) { return; }
    var o1 := TakeSymbol(ts, CurlyOpen);
    if o1.IsFailure() {
      SymbolSettled(ts, us, at, CurlyOpen);
      return;
    }
    var o2 := StructFields(o1.rest, []);
    StructFieldsPlaced(o1.rest, []);
    if o2.IsFailure() {
      DecidedLater(at, o1.rest, o2);
      SymbolSettled(ts, us, at, CurlyOpen);
      var p1 := TakeSymbol(us, CurlyOpen);
      StructFieldsSettled(o1.rest, p1.rest, at, []);
      return;
    }
    var o3 := TakeSymbol(o2.rest, CurlyClose);
    DecidedLater(at, o2.rest, o3);
    TailTransitive(at, o2.rest, o1.rest);
    SymbolSettled(ts, us, at, CurlyOpen);
    var p1 := TakeSymbol(us, CurlyOpen);
    StructFieldsSettled(o1.rest, p1.rest, at, []);
    var p2 := StructFields(p1.rest, []);
    SymbolSettled(o2.rest, p2.rest, at, CurlyClose);
  }

  lemma {:induction false} MappingBodySettled(ts: Stream, us: Stream, at: Stream)
    requires Shares(ts, us, at)
    ensures Settled(at, MappingBody(ts), MappingBody(us))
  {
    if !Decided(at, MappingBody(ts)) { return; }
    var o1 := TakeSymbol(ts, CurlyOpen);
    if o1.IsFailure() {
      SymbolSettled(ts, us, at, CurlyOpen);
      return;
    }
    var o2 := MappingFields(o1.rest, []);
    MappingFieldsPlaced(o1.rest, []);
    if o2.IsFailure() {
      DecidedLater(at, o1.rest, o2);
      SymbolSettled(ts, us, at, CurlyOpen);
      var p1 := TakeSymbol(us, CurlyOpen);
      MappingFieldsSettled(o1.rest, p1.rest, at, []);
      return;
    }
    var o3 := TakeSymbol(o2.rest, CurlyClose);
    DecidedLater(at, o2.rest, o3);
    TailTransitive(at, o2.rest, o1.rest);
    SymbolSettled(ts, us, at, CurlyOpen);
    var p1 := TakeSymbol(us, CurlyOpen);
    MappingFieldsSettled(o1.rest, p1.rest, at, []);
    var p2 := MappingFields(p1.rest, []);
    SymbolSettled(o2.rest, p2.rest, at, CurlyClose);
  }

  lemma {:induction false} StructSettled(ts: Stream, us: Stream, at: Stream)
    requires Shares(ts, us, at)
    ensures Settled(at, ParseStruct(ts), ParseStruct(us))
  {
    if !Decided(at, ParseStruct(ts)) { return; }
    var o1 := TakeDeclared(ts, StructKw);
    if o1.IsFailure() {
      DeclaredSettled(ts, us, at, StructKw);
      return;
    }
    var o2 := StructBody(o1.rest);
    StructBodyPlaced(o1.rest);
    DecidedLater(at, o1.rest, o2);
    DeclaredSettled(ts, us, at, StructKw);
    var p1 := TakeDeclared(us, StructKw);
    StructBodySettled(o1.rest, p1.rest, at);
  }

  lemma {:induction false} MappingSettled(ts: Stream, us: Stream, at: Stream)
    requires Shares(ts, us, at)
    ensures Settled(at, ParseMapping(ts), ParseMapping(us))
  {
    if !Decided(at, ParseMapping(ts)) { return; }
    var o1 := TakeDeclared(ts, MappingKw);
    if o1.IsFailure() {
      DeclaredSettled(ts, us, at, MappingKw);
      return;
    }
    var o2 := TakeCategory(o1.rest);
    CategoryPlaced(o1.rest);
    if o2.IsFailure() {
      DecidedLater(at, o1.rest, o2);
      DeclaredSettled(ts, us, at, MappingKw);
      var p1 := TakeDeclared(us, MappingKw);
      CategorySettled(o1.rest, p1.rest, at);
      return;
    }
    var o3 := MappingBody(o2.rest);
    MappingBodyPlaced(o2.rest);
    DecidedLater(at, o2.rest, o3);
    TailTransitive(at, o2.rest, o1.rest);
    DeclaredSettled(ts, us, at, MappingKw);
    var p1 := TakeDeclared(us, MappingKw);
    CategorySettled(o1.rest, p1.rest, at);
    var p2 := TakeCategory(p1.rest);
    MappingBodySettled(o2.rest, p2.rest, at);
  }

  lemma {:induction false} OptionalEncodingSettled(ts: Stream, us: Stream, at: Stream)
    requires Shares(ts, us, at)
    ensures Settled(at, OptionalEncoding(ts), OptionalEncoding(us))
  {
    if ts.Symbol() != Colon || !Decided(at, OptionalEncoding(ts)) { return; }
    DecidedLater(at, ts.tail, TakeName(ts.tail));
    SharesTail(ts, us, at);
    NameSettled(ts.tail, us.tail, at);
  }

  lemma {:induction false} EncodingFieldSettled(ts: Stream, us: Stream, at: Stream)
    requires Shares(ts, us, at)
    ensures Settled(at, ParseEncodingField(ts), ParseEncodingField(us))
  {
    if !Decided(at, ParseEncodingField(ts)) { return; }
    var o1 := TakeName(ts);
    if o1.IsFailure() {
      NameSettled(ts, us, at);
      return;
    }
    var o2 := OptionalEncoding(o1.rest);
    OptionalEncodingPlaced(o1.rest);
    DecidedLater(at, o1.rest, o2);
    NameSettled(ts, us, at);
    var p1 := TakeName(us);
    OptionalEncodingSettled(o1.rest, p1.rest, at);
  }

  lemma {:induction false} EncodingNodeSettled(ts: Stream, us: Stream, at: Stream)
    requires Shares(ts, us, at)
    ensures Settled(at, ParseEncodingNode(ts), ParseEncodingNode(us))
    decreases ts.Size(), 1
  {
    if ts.Symbol() == DeltaKw {
      DeltaBlockSettled(ts, us, at);
    } else {
      EncodingFieldSettled(ts, us, at);
    }
  }

  lemma {:induction false} DeltaBlockSettled(ts: Stream, us: Stream, at: Stream)
    requires Shares(ts, us, at) && ts.Symbol() == DeltaKw
    ensures Settled(at, ParseDeltaBlock(ts), ParseDeltaBlock(us))
    decreases ts.Size(), 0
  {
    if !Decided(at, ParseDeltaBlock(ts)) { return; }
    var ts1 := ts.tail;
    if ts1.Symbol() == Identifier {
      EncodingNodePlaced(ts1);
      DecidedLater(at, ts1, ParseEncodingNode(ts1));
      SharesTail(ts, us, at);
      EncodingNodeSettled(ts1, us.tail, at);
    } else if ts1.Symbol() == CurlyOpen {
      EncodingBodyPlaced(ts1);
      DecidedLater(at, ts1, EncodingBody(ts1));
      SharesTail(ts, us, at);
      EncodingBodySettled(ts1, us.tail, at);
    } else {
      SharesTail(ts, us, at);
    }
  }

  lemma {:induction false} EncodingNodesSettled(ts: Stream, us: Stream, at: Stream, done: seq<EncodingNode>)
    requires Shares(ts, us, at)
    ensures Settled(at, EncodingNodes(ts, done), EncodingNodes(us, done))
    decreases ts.Size(), 2
  {
    if ts.Symbol() == CurlyClose || !Decided(at, EncodingNodes(ts, done)) { return; }
    var o := ParseEncodingNode(ts);
    EncodingNodeSettled(ts, us, at);
    if o.IsFailure() { return; }
    var next := done + [o.value];
    EncodingNodesPlaced(o.rest, next);
    DecidedLater(at, o.rest, EncodingNodes(o.rest, next));
    EncodingNodesSettled(o.rest, ParseEncodingNode(us).rest, at, next);
  }

  lemma {:induction false} EncodingBodySettled(ts: Stream, us: Stream, at: Stream)
    requires Shares(ts, us, at)
    ensures Settled(at, EncodingBody(ts), EncodingBody(us))
    decreases ts.Size(), 0
  {
    if !Decided(at, EncodingBody(ts)) { return; }
    var o1 := TakeSymbol(ts, CurlyOpen);
    if o1.IsFailure() {
      SymbolSettled(ts, us, at, CurlyOpen);
      return;
    }
    var o2 := EncodingNodes(o1.rest, []);
    EncodingNodesPlaced(o1.rest, []);
    if o2.IsFailure() {
      DecidedLater(at, o1.rest, o2);
      SymbolSettled(ts, us, at, CurlyOpen);
      var p1 := TakeSymbol(us, CurlyOpen);
      EncodingNodesSettled(o1.rest, p1.rest, at, []);
      return;
    }
    var o3 := TakeSymbol(o2.rest, CurlyClose);
    DecidedLater(at, o2.rest, o3);
    TailTransitive(at, o2.rest, o1.rest);
    SymbolSettled(ts, us, at, CurlyOpen);
    var p1 := TakeSymbol(us, CurlyOpen);
    EncodingNodesSettled(o1.rest, p1.rest, at, []);
    var p2 := EncodingNodes(p1.rest, []);
    SymbolSettled(o2.rest, p2.rest, at, CurlyClose);
  }

  lemma {:induction false} EncodingSettled(ts: Stream, us: Stream, at: Stream)
    requires Shares(ts, us, at)
    ensures Settled(at, ParseEncoding(ts), ParseEncoding(us))
  {
    if !Decided(at, ParseEncoding(ts)) { return; }
    var o1 := TakeDeclared(ts, EncodingKw);
    if o1.IsFailure() {
      DeclaredSettled(ts, us, at, EncodingKw);
      return;
    }
    var o2 := OptionalEncoding(o1.rest);
    OptionalEncodingPlaced(o1.rest);
    if o2.IsFailure() {
      DecidedLater(at, o1.rest, o2);
      DeclaredSettled(ts, us, at, EncodingKw);
      var p1 := TakeDeclared(us, EncodingKw);
      OptionalEncodingSettled(o1.rest, p1.rest, at);
      return;
    }
    var o3 := EncodingBody(o2.rest);
    EncodingBodyPlaced(o2.rest);
    DecidedLater(at, o2.rest, o3);
    TailTransitive(at, o2.rest, o1.rest);
    DeclaredSettled(ts, us, at, EncodingKw);
    var p1 := TakeDeclared(us, EncodingKw);
    OptionalEncodingSettled(o1.rest, p1.rest, at);
    var p2 := OptionalEncoding(p1.rest);
    EncodingBodySettled(o2.rest, p2.rest, at);
  }

  // ---------------------------------------------------------------- documents

  lemma {:induction false} IncludeSettled(ts: Stream, us: Stream, at: Stream)
    requires Shares(ts, us, at)
    ensures Settled(at, ParseInclude(ts), ParseInclude(us))
  {
    if !Decided(at, ParseInclude(ts)) { return; }
    var o1 := TakeSymbol(ts, IncludeKw);
    if o1.IsFailure() {
      SymbolSettled(ts, us, at, IncludeKw);
      return;
    }
    var o2 := TakeString(o1.rest);
    DecidedLater(at, o1.rest, o2);
    SymbolSettled(ts, us, at, IncludeKw);
    var p1 := TakeSymbol(us, IncludeKw);
    StringSettled(o1.rest, p1.rest, at);
  }

  lemma {:induction false} IncludesSettled(ts: Stream, us: Stream, at: Stream, root: Root)
    requires Shares(ts, us, at)
    ensures Settled(at, Includes(ts, root), Includes(us, root))
    decreases ts.Size()
  {
    if ts.Symbol() != IncludeKw || !Decided(at, Includes(ts, root)) { return; }
    var o := ParseInclude(ts);
    IncludeSettled(ts, us, at);
    if o.IsFailure() { return; }
    var next := root.(includes := root.includes + [o.value]);
    IncludesPlaced(o.rest, next);
    DecidedLater(at, o.rest, Includes(o.rest, next));
    IncludesSettled(o.rest, ParseInclude(us).rest, at, next);
  }

  lemma {:induction false} OptionalNamespaceSettled(ts: Stream, us: Stream, at: Stream, root: Root)
    requires Shares(ts, us, at)
    ensures Settled(at, OptionalNamespace(ts, root), OptionalNamespace(us, root))
  {
    if ts.Symbol() != NamespaceKw || !Decided(at, OptionalNamespace(ts, root)) { return; }
    QualifiedPlaced(ts.tail);
    DecidedLater(at, ts.tail, ParseQualified(ts.tail));
    SharesTail(ts, us, at);
    QualifiedSettled(ts.tail, us.tail, at);
  }

  lemma OptionalNamespacePlaced(ts: Stream, root: Root)
    ensures Placed(ts, OptionalNamespace(ts, root))
  {
    if ts.Symbol() == NamespaceKw {
      QualifiedPlaced(ts.tail);
      Later(ts, ts.tail, ParseQualified(ts.tail));
    }
  }

  lemma {:induction false} HeaderSettled(ts: Stream, us: Stream, at: Stream, root: Root)
    requires Shares(ts, us, at)
    ensures Settled(at, Header(ts, root), Header(us, root))
  {
    if !Decided(at, Header(ts, root)) { return; }
    var o := Includes(ts, root);
    IncludesSettled(ts, us, at, root);
    if o.IsFailure() { return; }
    OptionalNamespacePlaced(o.rest, o.value);
    DecidedLater(at, o.rest, OptionalNamespace(o.rest, o.value));
    OptionalNamespaceSettled(o.rest, Includes(us, root).rest, at, o.value);
  }

  lemma {:induction false} DeclarationsSettled(ts: Stream, us: Stream, at: Stream, root: Root)
    requires Shares(ts, us, at)
    ensures Settled(at, Declarations(ts, root), Declarations(us, root))
    decreases ts.Size()
  {
    if !Decided(at, Declarations(ts, root)) { return; }
    if ts.Symbol() == StructKw {
      var o := ParseStruct(ts);
      StructSettled(ts, us, at);
      if o.IsFailure() { return; }
      var next := root.(structs := root.structs + [o.value]);
      DeclarationsPlaced(o.rest, next);
      DecidedLater(at, o.rest, Declarations(o.rest, next));
      DeclarationsSettled(o.rest, ParseStruct(us).rest, at, next);
    } else if ts.Symbol() == MappingKw {
      var o := ParseMapping(ts);
      MappingSettled(ts, us, at);
      if o.IsFailure() { return; }
      var next := root.(mappings := root.mappings + [o.value]);
      DeclarationsPlaced(o.rest, next);
      DecidedLater(at, o.rest, Declarations(o.rest, next));
      DeclarationsSettled(o.rest, ParseMapping(us).rest, at, next);
    } else if ts.Symbol() == EncodingKw {
      var o := ParseEncoding(ts);
      EncodingSettled(ts, us, at);
      if o.IsFailure() { return; }
      var next := root.(encodings := root.encodings + [o.value]);
      DeclarationsPlaced(o.rest, next);
      DecidedLater(at, o.rest, Declarations(o.rest, next));
      DeclarationsSettled(o.rest, ParseEncoding(us).rest, at, next);
    }
  }

  lemma {:induction false} DocumentSettled(ts: Stream, us: Stream, at: Stream, origin: Position)
    requires Shares(ts, us, at)
    ensures Settled(at, ParseDocument(ts, origin), ParseDocument(us, origin))
  {
    if !Decided(at, ParseDocument(ts, origin)) { return; }
    var root := EmptyRoot(origin);
    var o := Header(ts, root);
    HeaderSettled(ts, us, at, root);
    if o.IsFailure() { return; }
    DeclarationsPlaced(o.rest, o.value);
    DecidedLater(at, o.rest, Declarations(o.rest, o.value));
    DeclarationsSettled(o.rest, Header(us, root).rest, at, o.value);
  }

  /**
   An error is decided by the tokens before the one it points at and the symbol of that one: any other
   input that starts so gets the same error, and no document of the grammar does.
   */
  lemma ErrorsAreUnavoidable(ts: Stream, origin: Position, us: Stream)
    requires ParseDocument(ts, origin).Thrown? && Shares(ts, us, ParseDocument(ts, origin).at)
    ensures ParseDocument(us, origin).Thrown? && ParseDocument(us, origin).error == ParseDocument(ts, origin).error
    ensures forall d: HappySyntax.DocumentSyntax :: HappySyntax.DocumentTokens(d) != us
  {
    DocumentSettled(ts, us, ParseDocument(ts, origin).at, origin);
    forall d: HappySyntax.DocumentSyntax
      ensures HappySyntax.DocumentTokens(d) != us
    {
      HappySyntax.DocumentComplete(d, origin);
    }
  }
}
