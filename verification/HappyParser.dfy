/**
 The streaming parser: a window over the input that is refilled in pieces of any size
 and trimmed, a one-symbol lookahead cache, and the recursive-descent methods. Every
 method is proved to do what the pure lexer and grammar do on the whole text, so no
 result depends on how the reader cuts the input.
 */
module HappyParser {
  import opened HappyAst
  import opened HappyLexer
  import opened HappyGrammar

  datatype Result<+T> = Success(value: T) | Failure(error: ParseError) {
    predicate IsFailure() { Failure? }

    function PropagateFailure<U>(): Result<U>
      requires Failure?
    {
      Failure(error)
    }

    function Extract(): T
      requires Success?
    {
      value
    }
  }

  /** A reader of one fixed text that hands out non-empty pieces of its own choosing, then nothing. */
  class StreamReader {
    const content: string
    var delivered: nat

    ghost predicate Valid()
      reads this
    {
      delivered <= |content|
    }

    constructor (content: string)
      ensures Valid() && this.content == content && delivered == 0
    {
      this.content := content;
      delivered := 0;
    }

    method Read(length: nat) returns (piece: string)
      requires Valid() && 0 < length
      modifies this
      ensures Valid()
      ensures |piece| <= length && delivered == old(delivered) + |piece|
      ensures piece == content[old(delivered)..delivered]
      ensures piece == "" <==> old(delivered) == |content|
    {
      if delivered == |content| {
        piece := "";
      } else {
        var n: nat :| 0 < n <= length && n <= |content| - delivered;
        piece := content[delivered..delivered + n];
        delivered := delivered + n;
      }
    }
  }

  const READ_AHEAD: nat := 0x0800
  const TRIM_AT: nat := 0x4000

  class Parser {
    const reader: StreamReader
    var pos: Position
    var buffer: string
    var tmpBuffer: string
    var bufferOffset: nat
    var nextSymbol: Symbol

    /** The input from the logical position on. */
    ghost var ahead: string

    /** What is ahead is the buffer from the read offset on, and then what the reader still holds. */
    ghost predicate WindowValid()
      reads this, reader
    {
      reader.Valid() && bufferOffset <= |buffer|
      && ahead == buffer[bufferOffset..] + reader.content[reader.delivered..]
    }

    ghost function Here(): Cursor
      reads this`ahead, this`pos
    {
      Cursor(ahead, pos)
    }

    /** A cached symbol is the one that scanning again would give, with the layout already skipped. */
    ghost predicate CacheCoherent()
      reads this`ahead, this`pos, this`nextSymbol
    {
      nextSymbol == Invalid
      || (SkipLayout(Here()) == Here() && nextSymbol == ScannedSymbol(Scan(Here().text)))
    }

    ghost predicate Valid()
      reads this, reader
    {
      WindowValid() && CacheCoherent()
    }

    /** The tokens still to be parsed. */
    ghost function Rest(): Stream
      reads this`ahead, this`pos
    {
      Tokens(Here())
    }

    constructor (file: string, reader: StreamReader)
      requires reader.Valid() && reader.delivered == 0
      ensures Valid() && this.reader == reader && nextSymbol == Invalid
      ensures Here() == Start(file, reader.content)
    {
      this.reader := reader;
      pos := Position(file, 1, 0);
      buffer, tmpBuffer, bufferOffset := "", "", 0;
      nextSymbol := Invalid;
      ahead := reader.content;
    }

    // -------------------------------------------------------------- the window

    method PeekAt(offset: nat) returns (c: char)
      requires WindowValid()
      modifies this`buffer, reader
      ensures WindowValid() && Here() == old(Here())
      ensures c == CharAt(Here().text, offset)
      ensures offset < |Here().text| ==> bufferOffset + offset < |buffer|
    {
      while bufferOffset + offset >= |buffer|
        invariant WindowValid()
        decreases |reader.content| - reader.delivered
      {
        var initialSize := |buffer|;
        var piece := reader.Read(bufferOffset + offset + READ_AHEAD - initialSize);
        buffer := buffer + piece;
        if piece == "" {
          return '\0';
        }
      }
      return buffer[bufferOffset + offset];
    }

    method TrimOpportunity()
      requires WindowValid()
      modifies this`buffer, this`tmpBuffer, this`bufferOffset
      ensures WindowValid() && Here() == old(Here())
    {
      if bufferOffset >= TRIM_AT {
        tmpBuffer := buffer[bufferOffset..];
        buffer, tmpBuffer := tmpBuffer, buffer;
        bufferOffset := 0;
      }
    }

    /** `++buffer_offset_`, on a character that has been peeked. */
    method Bump(next: Position)
      requires WindowValid() && bufferOffset < |buffer|
      modifies this`bufferOffset, this`ahead, this`pos
      ensures WindowValid() && old(Here().text) != ""
      ensures Here() == Cursor(old(Here().text)[1..], next)
    {
      bufferOffset := bufferOffset + 1;
      ahead := ahead[1..];
      pos := next;
    }

    /** The position after `offset` more characters, all of which are in the buffer afterwards. */
    method MoveOver(offset: nat)
      requires WindowValid() && offset <= |Here().text|
      modifies this`pos, this`buffer, reader
      ensures WindowValid() && bufferOffset + offset <= |buffer|
      ensures Here() == Cursor(old(Here().text), Moved(old(pos), old(Here().text), offset))
    {
      ghost var t := Here().text;
      ghost var start := pos;
      var i := 0;
      while i < offset
        invariant i <= offset && bufferOffset + i <= |buffer|
        invariant WindowValid() && Here().text == t
        invariant pos == Moved(start, t, i)
      {
        var c := PeekAt(i);
        if c == '\n' {
          pos := pos.(column := 0, line := pos.line + 1);
        } else {
          pos := pos.(column := pos.column + 1);
        }
        i := i + 1;
      }
    }

    method Advance(offset: nat)
      requires WindowValid() && offset <= |Here().text|
      modifies this, reader
      ensures Valid() && nextSymbol == Invalid
      ensures Here() == HappyLexer.Advance(old(Here()), offset)
    {
      MoveOver(offset);
      bufferOffset := bufferOffset + offset;
      ahead := ahead[offset..];
      nextSymbol := Invalid;
      TrimOpportunity();
    }

    /** As at the end of `parse_symbol`, which trims once more. */
    method AdvanceAndTrim(offset: nat)
      requires WindowValid() && offset <= |Here().text|
      modifies this, reader
      ensures Valid() && nextSymbol == Invalid
      ensures Here() == HappyLexer.Advance(old(Here()), offset)
    {
      Advance(offset);
      TrimOpportunity();
    }

    method SkipCommentText() returns (c: char)
      requires WindowValid()
      modifies this`pos, this`buffer, this`bufferOffset, this`ahead, reader
      ensures WindowValid() && Here() == SkipComment(old(Here()))
      ensures c == CharAt(Here().text, 0)
      ensures Here().text != "" ==> bufferOffset < |buffer|
    {
      ghost var target := SkipComment(Here());
      c := PeekAt(0);
      while !EndsComment(c)
        invariant WindowValid() && SkipComment(Here()) == target
        invariant c == CharAt(Here().text, 0)
        invariant Here().text != "" ==> bufferOffset < |buffer|
        decreases |Here().text|
      {
        Bump(pos.(column := pos.column + 1));
        c := PeekAt(0);
      }
    }

    /** One blank, or a whole comment, in the loop of `skip_whitespace`. */
    method SkipOne(h: char) returns (c: char)
      requires WindowValid() && IsLayout(h) && h == CharAt(Here().text, 0) && bufferOffset < |buffer|
      modifies this, reader
      ensures WindowValid() && nextSymbol == old(nextSymbol)
      ensures SkipLayout(Here()) == SkipLayout(old(Here())) && |Here().text| < |old(Here()).text|
      ensures c == CharAt(Here().text, 0) && (Here().text != "" ==> bufferOffset < |buffer|)
    {
      var next := pos;
      if h == ' ' || h == '\t' {
        next := pos.(column := pos.column + 1);
      }
      if h == '\n' {
        next := pos.(column := 0, line := pos.line + 1);
      }
      if h == '#' {
        Bump(pos.(column := pos.column + 1));
        c := SkipCommentText();
        return;
      }
      Bump(next);
      c := PeekAt(0);
    }

    method SkipWhitespace()
      requires WindowValid()
      modifies this, reader
      ensures WindowValid() && nextSymbol == old(nextSymbol)
      ensures Here() == SkipLayout(old(Here()))
    {
      ghost var target := SkipLayout(Here());
      var c := PeekAt(0);
      while IsLayout(c)
        invariant WindowValid() && nextSymbol == old(nextSymbol)
        invariant SkipLayout(Here()) == target
        invariant c == CharAt(Here().text, 0)
        invariant Here().text != "" ==> bufferOffset < |buffer|
        decreases |Here().text|
      {
        c := SkipOne(c);
      }
      TrimOpportunity();
    }

    // -------------------------------------------------------------- the lexer

    method PeekSymbol() returns (s: Symbol)
      requires Valid()
      modifies this, reader
      ensures Valid() && nextSymbol == s != Invalid
      ensures Rest() == old(Rest()) && s == Rest().Symbol() && pos == Rest().pos
      ensures old(nextSymbol) != Invalid ==> Here() == old(Here())
    {
      if nextSymbol == Invalid {
        SkipLayoutTwice(Here());
        SkipWhitespace();
        nextSymbol := Classify();
      }
      s := nextSymbol;
      FirstSymbol(Here());
    }

    /** The digits from `from` on: where they end, their value if it fits, and the character after them. */
    method ScanDigits(from: nat) returns (end: nat, c: char)
      requires WindowValid() && from <= |Here().text|
      modifies this`buffer, reader
      ensures WindowValid() && Here() == old(Here())
      ensures end == DigitsEnd(Here().text, from) && c == CharAt(Here().text, end)
    {
      ghost var t := Here().text;
      end := from;
      c := PeekAt(end);
      while IsDigit(c)
        invariant WindowValid() && Here() == old(Here())
        invariant end <= |t| && c == CharAt(t, end) && DigitsEnd(t, end) == DigitsEnd(t, from)
        decreases |t| - end
      {
        end := end + 1;
        c := PeekAt(end);
      }
    }

    /** The name characters from `from` on, and where they end. */
    method ScanName(from: nat) returns (end: nat, name: string)
      requires WindowValid() && from <= |Here().text|
      modifies this`buffer, reader
      ensures WindowValid() && Here() == old(Here())
      ensures end == NameEnd(Here().text, from) && name == Here().text[from..end]
    {
      ghost var t := Here().text;
      end, name := from, "";
      var c := PeekAt(end);
      while IsNameChar(c)
        invariant WindowValid() && Here() == old(Here())
        invariant from <= end <= |t| && c == CharAt(t, end) && name == Between(t, from, end)
        invariant NameEnd(t, end) == NameEnd(t, from)
        decreases |t| - end
      {
        name := name + [c];
        end := end + 1;
        c := PeekAt(end);
      }
      BetweenIsSlice(t, from, end);
    }

    method ClassifyWord() returns (s: Symbol)
      requires WindowValid() && Here().text != ""
      modifies this`buffer, reader
      ensures WindowValid() && Here() == old(Here())
      ensures s == ScannedSymbol(ScanWord(Here().text))
    {
      var c := PeekAt(0);
      var end, more := ScanName(1);
      Prepend(Here().text, end);
      return LexemeSymbol(NameOrKeyword([c] + more));
    }

    /** The classification in `peek_symbol`, once the layout is skipped. */
    method Classify() returns (s: Symbol)
      requires WindowValid()
      modifies this`buffer, reader
      ensures WindowValid() && Here() == old(Here())
      ensures s == ScannedSymbol(Scan(Here().text))
    {
      ghost var t := Here().text;
      var c := PeekAt(0);
      if c == '\0' {
        s := Eof;
      } else if IsDigit(c) || c == '-' || c == '+' {
        var _, after := ScanDigits(1);
        s := if after == '.' then Number else Integer;
      } else if SignOf(c) != Invalid {
        s := SignOf(c);
      } else if c == '\'' || c == '"' {
        s := String;
      } else if IsLetter(c) {
        s := ClassifyWord();
      } else {
        s := Error;
      }
      assert s == ScannedSymbol(Scan(t));
    }

    /** What a production promises: the outcome the grammar gives for the tokens it started at. */
    ghost predicate Follows<T>(spec: Outcome<T>, r: Result<T>)
      reads this, reader
    {
      Valid() &&
      match spec
      case Done(v, rest) => r == Success(v) && Rest() == rest
      case Thrown(e, at) => r == Failure(e) && Rest() == at && pos == e.pos
      case Stuck(_) => true
    }

    method Unexpected(wanted: Expectation) returns (e: ParseError)
      requires Valid()
      modifies this, reader
      ensures Valid() && Rest() == old(Rest()) && nextSymbol == Rest().Symbol() && pos == e.pos
      ensures e == ParseError(Rest().pos, Rest().Symbol(), wanted)
    {
      var s := PeekSymbol();
      e := ParseError(pos, s, wanted);
    }

    method Expect(expected: Symbol) returns (r: Result<()>)
      requires Valid() && expected != Invalid
      modifies this, reader
      ensures Valid() && Rest() == old(Rest()) && nextSymbol == Rest().Symbol() && pos == Rest().pos
      ensures r == if Rest().Symbol() == expected then Success(())
                   else Failure(ParseError(Rest().pos, Rest().Symbol(), ExpectedSymbol(expected)))
    {
      var s := PeekSymbol();
      if s != expected {
        var e := Unexpected(ExpectedSymbol(expected));
        return Failure(e);
      }
      return Success(());
    }

    method ParseSymbol(symbol: FixedSymbol) returns (r: Result<()>)
      requires Valid()
      modifies this, reader
      ensures Follows(TakeSymbol(old(Rest()), symbol), r)
    {
      r := Expect(symbol);
      if r.Success? {
        FixedToken(Here(), symbol);
        AdvanceAndTrim(SpellingLength(symbol));
      }
    }

    method ParseIdentifier() returns (r: Result<string>)
      requires Valid()
      modifies this, reader
      ensures Follows(TakeName(old(Rest())), r)
    {
      var _ :- Expect(Identifier);
      NameFromStart(Here().text);
      var len, ret := ScanName(0);
      Advance(len);
      return Success(ret);
    }

    static method Unescaped(c: char) returns (r: char)
      ensures r == Unescape(c)
    {
      match c
      case 'n' => r := '\n';
      case 't' => r := '\t';
      case '0' => r := '\0';
      case _ => r := c;
    }

    /** The body of a string literal; terminates because the literal is closed. */
    method ScanQuoted() returns (len: nat, ret: string)
      requires WindowValid() && Here().text != ""
      requires ScanString(Here().text, 1, Here().text[0], "").Closed?
      modifies this`buffer, reader
      ensures WindowValid() && Here() == old(Here())
      ensures ScanString(Here().text, 1, Here().text[0], "") == Closed(ret, len)
    {
      ghost var t := Here().text;
      len, ret := 1, "";
      var delim := PeekAt(0);
      var c := PeekAt(len);
      while c != delim
        invariant WindowValid() && Here() == old(Here())
        invariant len < |t| && c == t[len]
        invariant ScanString(t, len, delim, ret) == ScanString(t, 1, delim, "")
        decreases |t| - len
      {
        if c == '\\' {
          len := len + 1;
          c := PeekAt(len);
          c := Unescaped(c);
        }
        ret := ret + [c];
        len := len + 1;
        c := PeekAt(len);
      }
      len := len + 1;
    }

    method ParseString() returns (r: Result<string>)
      requires Valid() && !TakeString(Rest()).Stuck?
      modifies this, reader
      ensures Follows(TakeString(old(Rest())), r)
    {
      var _ :- Expect(String);
      StringFromStart(Here().text);
      var len, ret := ScanQuoted();
      Advance(len);
      return Success(ret);
    }

    /** The digits of an integer accumulated in 64 bits, which the value must fit. */
    method AccumulateDigits(first: nat) returns (len: nat, ret: int64)
      requires WindowValid() && first <= |Here().text|
      requires DigitsValue(Here().text, first, DigitsEnd(Here().text, first)) < TWO63
      modifies this`buffer, reader
      ensures WindowValid() && Here() == old(Here())
      ensures len == DigitsEnd(Here().text, first)
      ensures ret as int == DigitsValue(Here().text, first, len)
    {
      ghost var t := Here().text;
      ghost var end := DigitsEnd(t, first);
      len, ret := first, 0;
      var c := PeekAt(len);
      while IsDigit(c)
        invariant WindowValid() && Here() == old(Here())
        invariant first <= len <= end && c == CharAt(t, len) && DigitsEnd(t, len) == end
        invariant ret as int == DigitsValue(t, first, len)
        decreases end - len
      {
        NextDigit(t, first, len, end);
        ret := ret * 10 + (c as int - '0' as int) as int64;
        len := len + 1;
        c := PeekAt(len);
      }
    }

    method ScanSigned() returns (len: nat, ret: int64)
      requires WindowValid() && StartsInteger(CharAt(Here().text, 0))
      requires var t := Here().text;
               DigitsEnd(t, IntegerStart(t)) == DigitsEnd(t, 1) && DigitsValue(t, IntegerStart(t), DigitsEnd(t, 1)) < TWO63
      modifies this`buffer, reader
      ensures WindowValid() && Here() == old(Here())
      ensures var t := Here().text; len == DigitsEnd(t, 1) && ret == IntegerValue(t, len)
    {
      var first := 0;
      var negative := false;
      var c := PeekAt(0);
      if c == '-' {
        negative := true;
        first := 1;
      } else if c == '+' {
        first := 1;
      }
      len, ret := AccumulateDigits(first);
      if negative {
        ret := -ret;
      }
    }

    method ParseInteger() returns (r: Result<int64>)
      requires Valid() && !TakeInteger(Rest()).Stuck?
      modifies this, reader
      ensures Follows(TakeInteger(old(Rest())), r)
    {
      var _ :- Expect(Integer);
      AtInteger(Here());
      TokenHead(Here());
      var len, ret := ScanSigned();
      Advance(len);
      return Success(ret);
    }

    // -------------------------------------------------------------- identifiers and types

    method ParseQualifiedIdentifier() returns (r: Result<QualifiedIdentifier>)
      requires Valid()
      modifies this, reader
      ensures Follows(ParseQualified(old(Rest())), r)
    {
      ghost var start := Rest();
      var space := [];
      var tmp :- ParseIdentifier();
      var s := PeekSymbol();
      while s == NamespaceSep
        invariant Valid() && s == Rest().Symbol()
        invariant ParseQualified(start) == QualifiedMore(Rest(), space, tmp)
        decreases Rest().Size()
      {
        var _ :- ParseSymbol(NamespaceSep);
        space := space + [tmp];
        tmp :- ParseIdentifier();
        s := PeekSymbol();
      }
      return Success(QualifiedIdentifier(space, tmp));
    }

    method ParseTypeName() returns (r: Result<Type>)
      requires Valid() && !ParseType(Rest()).Stuck?
      modifies this, reader
      ensures Follows(ParseType(old(Rest())), r)
    {
      var id :- ParseQualifiedIdentifier();
      var s := PeekSymbol();
      if s != BracketOpen {
        return Success(Type(id, NotArray));
      }
      var _ :- ParseSymbol(BracketOpen);
      var size :- ParseInteger();
      var _ :- ParseSymbol(BracketClose);
      return Success(Type(id, ArrayOf(size)));
    }

    // -------------------------------------------------------------- structs

    method ParseStructFieldNode() returns (r: Result<StructField>)
      requires Valid() && nextSymbol != Invalid && !ParseStructField(Rest()).Stuck?
      modifies this, reader
      ensures Follows(ParseStructField(old(Rest())), r)
    {
      var nodePos := pos;
      var id :- ParseIdentifier();
      var _ :- ParseSymbol(Colon);
      var typ :- ParseTypeName();
      return Success(StructField(id, typ, nodePos));
    }

    method ParseStructNode() returns (r: Result<Struct>)
      requires Valid() && nextSymbol != Invalid && !ParseStruct(Rest()).Stuck?
      modifies this, reader
      ensures Follows(ParseStruct(old(Rest())), r)
    {
      var nodePos := pos;
      var _ :- ParseSymbol(StructKw);
      var id :- ParseIdentifier();
      var fields :- ParseStructBody();
      return Success(Struct(id, fields, nodePos));
    }

    /** The braces of a struct, and the loop between them. */
    method ParseStructBody() returns (r: Result<seq<StructField>>)
      requires Valid() && !StructBody(Rest()).Stuck?
      modifies this, reader
      ensures Follows(StructBody(old(Rest())), r)
    {
      var _ :- ParseSymbol(CurlyOpen);
      ghost var inner := Rest();
      var fields: seq<StructField> := [];
      var s := PeekSymbol();
      while s != CurlyClose
        invariant Valid() && nextSymbol == s == Rest().Symbol()
        invariant StructFields(inner, []) == StructFields(Rest(), fields)
        decreases Rest().Size()
      {
        var f :- ParseStructFieldNode();
        fields := fields + [f];
        s := PeekSymbol();
      }
      var _ :- ParseSymbol(CurlyClose);
      return Success(fields);
    }

    // -------------------------------------------------------------- mappings

    method ParseMappingFieldNode() returns (r: Result<MappingField>)
      requires Valid() && nextSymbol != Invalid && !ParseMappingField(Rest()).Stuck?
      modifies this, reader
      ensures Follows(ParseMappingField(old(Rest())), r)
    {
      var nodePos := pos;
      var id :- ParseIdentifier();
      var _ :- ParseSymbol(Colon);
      var text :- ParseString();
      return Success(MappingField(id, text, nodePos));
    }

    method ParseMappingNode() returns (r: Result<Mapping>)
      requires Valid() && nextSymbol != Invalid && !ParseMapping(Rest()).Stuck?
      modifies this, reader
      ensures Follows(ParseMapping(old(Rest())), r)
    {
      var nodePos := pos;
      var _ :- ParseSymbol(MappingKw);
      var id :- ParseIdentifier();
      var _ :- ParseSymbol(Colon);
      var category :- ParseQualifiedIdentifier();
      var fields :- ParseMappingBody();
      return Success(Mapping(id, category, fields, nodePos));
    }

    /** The braces of a mapping, and the loop between them. */
    method ParseMappingBody() returns (r: Result<seq<MappingField>>)
      requires Valid() && !MappingBody(Rest()).Stuck?
      modifies this, reader
      ensures Follows(MappingBody(old(Rest())), r)
    {
      var _ :- ParseSymbol(CurlyOpen);
      ghost var inner := Rest();
      var fields: seq<MappingField> := [];
      var s := PeekSymbol();
      while s != CurlyClose
        invariant Valid() && nextSymbol == s == Rest().Symbol()
        invariant MappingFields(inner, []) == MappingFields(Rest(), fields)
        decreases Rest().Size()
      {
        var f :- ParseMappingFieldNode();
        fields := fields + [f];
        s := PeekSymbol();
      }
      var _ :- ParseSymbol(CurlyClose);
      return Success(fields);
    }

    // -------------------------------------------------------------- encodings

    method ParseOptionalEncoding() returns (r: Result<string>)
      requires Valid()
      modifies this, reader
      ensures Follows(OptionalEncoding(old(Rest())), r)
    {
      var s := PeekSymbol();
      if s == Colon {
        var _ :- ParseSymbol(Colon);
        r := ParseIdentifier();
      } else {
        r := Success(DEFAULT_ENCODING);
      }
    }

    method ParseEncodingFieldNode() returns (r: Result<EncodingNode>)
      requires Valid() && nextSymbol != Invalid
      modifies this, reader
      ensures Follows(ParseEncodingField(old(Rest())), r)
    {
      var nodePos := pos;
      var id :- ParseIdentifier();
      var enco :- ParseOptionalEncoding();
      return Success(EncodingField(id, enco, nodePos));
    }

    method ParseEncodingTree() returns (r: Result<EncodingNode>)
      requires Valid() && !ParseEncodingNode(Rest()).Stuck?
      modifies this, reader
      ensures Follows(ParseEncodingNode(old(Rest())), r)
      decreases Rest().Size(), 1
    {
      var s := PeekSymbol();
      if s == DeltaKw {
        r := ParseDeltaTree();
      } else if s == Identifier {
        r := ParseEncodingFieldNode();
      } else {
        var e := Unexpected(InContext("encoding_node"));
        r := Failure(e);
      }
    }

    method ParseDeltaTree() returns (r: Result<EncodingNode>)
      requires Valid() && nextSymbol != Invalid && !ParseDeltaBlock(Rest()).Stuck?
      modifies this, reader
      ensures Follows(ParseDeltaBlock(old(Rest())), r)
      decreases Rest().Size(), 0
    {
      var nodePos := pos;
      var _ :- ParseSymbol(DeltaKw);
      var fields: seq<EncodingNode> := [];
      var s := PeekSymbol();
      if s == Identifier {
        var f :- ParseEncodingTree();
        fields := [f];
      } else if s == CurlyOpen {
        fields :- ParseEncodingBody();
      } else {
        var e := Unexpected(InContext("encoding_delta_block"));
        return Failure(e);
      }
      return Success(DeltaBlock(fields, nodePos));
    }

    /** The braces that encodings and DELTA blocks share, and the loop between them. */
    method ParseEncodingBody() returns (r: Result<seq<EncodingNode>>)
      requires Valid() && !EncodingBody(Rest()).Stuck?
      modifies this, reader
      ensures Follows(EncodingBody(old(Rest())), r)
      decreases Rest().Size(), 0
    {
      ghost var start := Rest();
      var _ :- ParseSymbol(CurlyOpen);
      ghost var inner := Rest();
      var fields: seq<EncodingNode> := [];
      var s := PeekSymbol();
      while s != CurlyClose
        invariant Valid() && nextSymbol == s == Rest().Symbol() && Rest().Size() < start.Size()
        invariant EncodingNodes(inner, []) == EncodingNodes(Rest(), fields)
        decreases Rest().Size()
      {
        var f :- ParseEncodingTree();
        fields := fields + [f];
        s := PeekSymbol();
      }
      var _ :- ParseSymbol(CurlyClose);
      return Success(fields);
    }

    method ParseEncodingDeclaration() returns (r: Result<Encoding>)
      requires Valid() && nextSymbol != Invalid && !ParseEncoding(Rest()).Stuck?
      modifies this, reader
      ensures Follows(ParseEncoding(old(Rest())), r)
    {
      var nodePos := pos;
      var _ :- ParseSymbol(EncodingKw);
      var id :- ParseIdentifier();
      var enco :- ParseOptionalEncoding();
      var fields :- ParseEncodingBody();
      return Success(Encoding(id, enco, fields, nodePos));
    }

    // -------------------------------------------------------------- documents

    method ParseIncludeNode() returns (r: Result<Include>)
      requires Valid() && nextSymbol != Invalid && !ParseInclude(Rest()).Stuck?
      modifies this, reader
      ensures Follows(ParseInclude(old(Rest())), r)
    {
      var nodePos := pos;
      var _ :- ParseSymbol(IncludeKw);
      var path :- ParseString();
      return Success(Include(path, nodePos));
    }

    method ParseHeader(root: Root) returns (r: Result<Root>)
      requires Valid() && !Header(Rest(), root).Stuck?
      modifies this, reader
      ensures Follows(Header(old(Rest()), root), r)
    {
      ghost var start := Rest();
      var node := root;
      var s := PeekSymbol();
      while s == IncludeKw
        invariant Valid() && nextSymbol == s == Rest().Symbol()
        invariant Includes(start, root) == Includes(Rest(), node)
        decreases Rest().Size()
      {
        var i :- ParseIncludeNode();
        node := node.(includes := node.includes + [i]);
        s := PeekSymbol();
      }
      if s == NamespaceKw {
        var _ :- ParseSymbol(NamespaceKw);
        var space :- ParseQualifiedIdentifier();
        node := node.(space := space);
      }
      return Success(node);
    }

    method ParseWholeDocument() returns (r: Result<Root>)
      requires Valid() && !ParseDocument(Rest(), pos).Stuck?
      modifies this, reader
      ensures Follows(ParseDocument(old(Rest()), old(pos)), r)
    {
      var root :- ParseHeader(EmptyRoot(pos));
      ghost var start, header := Rest(), root;
      while true
        invariant Valid()
        invariant Declarations(start, header) == Declarations(Rest(), root)
        decreases Rest().Size()
      {
        var symbol := PeekSymbol();
        if symbol == StructKw {
          var d :- ParseStructNode();
          root := root.(structs := root.structs + [d]);
        } else if symbol == MappingKw {
          var d :- ParseMappingNode();
          root := root.(mappings := root.mappings + [d]);
        } else if symbol == EncodingKw {
          var d :- ParseEncodingDeclaration();
          root := root.(encodings := root.encodings + [d]);
        } else if symbol == Eof {
          return Success(root);
        } else {
          var e := Unexpected(InContext("document"));
          return Failure(e);
        }
      }
    }

    /**
     `Parser::parse`: whatever pieces the reader delivers, the result is the one the grammar
     gives for the whole text.
     */
    static method Parse(file: string, reader: StreamReader) returns (r: Result<Root>)
      requires reader.Valid() && reader.delivered == 0
      requires !ParseText(file, reader.content).Stuck?
      modifies reader
      ensures var spec := ParseText(file, reader.content);
              r == if spec.Done? then Success(spec.value) else Failure(spec.error)
    {
      var p := new Parser(file, reader);
      r := p.ParseWholeDocument();
    }
  }

  // ---------------------------------------------------------------- extents

  /** The characters between two offsets, one at a time. */
  function Between(t: string, from: nat, end: nat): string
    requires from <= end <= |t|
  {
    if from == end then "" else Between(t, from, end - 1) + [t[end - 1]]
  }

  lemma {:induction false} BetweenIsSlice(t: string, from: nat, end: nat)
    requires from <= end <= |t|
    ensures Between(t, from, end) == t[from..end]
    decreases end
  {
    if from < end {
      BetweenIsSlice(t, from, end - 1);
      assert t[from..end] == t[from..end - 1] + [t[end - 1]];
    }
  }

  lemma Prepend(t: string, end: nat)
    requires 1 <= end <= |t|
    ensures t[..end] == [t[0]] + t[1..end]
  {
  }

  lemma FirstSymbol(c: Cursor)
    requires SkipLayout(c) == c
    ensures Tokens(c).Symbol() == ScannedSymbol(Scan(c.text)) && Tokens(c).pos == c.pos
  {
    TokenHead(c);
  }

  /** A fixed symbol's spelling is exactly what the classifier scanned. */
  lemma FixedExtent(t: string, symbol: FixedSymbol)
    requires ScannedSymbol(Scan(t)) == symbol
    ensures Scan(t) == Found(Fixed(symbol), SpellingLength(symbol))
  {
  }

  lemma FixedToken(c: Cursor, symbol: FixedSymbol)
    requires SkipLayout(c) == c && ScannedSymbol(Scan(c.text)) == symbol
    ensures SpellingLength(symbol) <= |c.text|
    ensures Tokens(c) == Step(Fixed(symbol), c.pos, Tokens(HappyLexer.Advance(c, SpellingLength(symbol))))
  {
    FixedExtent(c.text, symbol);
    TokenHead(c);
  }

  lemma NameFromStart(t: string)
    requires ScannedSymbol(Scan(t)) == Identifier
    ensures NameEnd(t, 0) == NameEnd(t, 1)
    ensures Scan(t) == Found(Name(t[..NameEnd(t, 1)]), NameEnd(t, 1))
  {
  }

  lemma StringFromStart(t: string)
    requires ScannedSymbol(Scan(t)) == String && Scan(t) != Stops(UnclosedString)
    ensures t != "" && ScanString(t, 1, t[0], "").Closed?
    ensures var r := ScanString(t, 1, t[0], ""); Scan(t) == Found(Quoted(r.content), r.extent)
  {
  }

  lemma IntegerFromStart(t: string)
    requires ScannedSymbol(Scan(t)) == Integer
    ensures StartsInteger(CharAt(t, 0)) && Scan(t) == ScanInteger(t)
  {
  }

  lemma FirstDigit(t: string)
    requires StartsInteger(CharAt(t, 0))
    ensures DigitsEnd(t, IntegerStart(t)) == DigitsEnd(t, 1)
  {
  }

  lemma AtInteger(c: Cursor)
    requires SkipLayout(c) == c && ScannedSymbol(Scan(c.text)) == Integer && !TakeInteger(Tokens(c)).Stuck?
    ensures StartsInteger(CharAt(c.text, 0)) && DigitsEnd(c.text, IntegerStart(c.text)) == DigitsEnd(c.text, 1)
    ensures var n := DigitsEnd(c.text, 1);
            DigitsValue(c.text, IntegerStart(c.text), n) < TWO63
            && Scan(c.text) == Found(Whole(IntegerValue(c.text, n)), n)
  {
    IntegerFromStart(c.text);
    FirstDigit(c.text);
    TokenHead(c);
    assert ScanInteger(c.text) != Stops(HugeInteger);
  }

  /** Every intermediate value of the accumulator is at most the final one. */
  /** One digit more stays below what all the digits come to. */
  lemma NextDigit(t: string, first: nat, len: nat, end: nat)
    requires first <= len < end <= |t| && IsDigit(t[len])
    ensures DigitsValue(t, first, len + 1) == DigitsValue(t, first, len) * 10 + (t[len] as int - '0' as int)
    ensures DigitsValue(t, first, len + 1) <= DigitsValue(t, first, end)
  {
    DigitsValueGrows(t, first, len + 1, end);
  }

  lemma {:induction false} DigitsValueGrows(t: string, first: nat, k: nat, end: nat)
    requires first <= k <= end <= |t|
    ensures DigitsValue(t, first, k) <= DigitsValue(t, first, end)
    decreases end - k
  {
    if k < end {
      DigitsValueGrows(t, first, k + 1, end);
    }
  }
}
