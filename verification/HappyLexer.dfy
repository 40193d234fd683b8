/**
 What the lexer of `happy` means on one fixed text: layout, the classification of
 the next symbol, the extent of every symbol, and the resulting token stream.
 Nothing here knows about buffers, chunks or the lookahead cache.
 */
module HappyLexer {
  import opened HappyAst

  datatype Symbol =
    | Identifier | String | Integer | Number
    | NamespaceKw | IncludeKw | StructKw | MappingKw | EncodingKw | DeltaKw
    | Colon | NamespaceSep | CurlyOpen | CurlyClose | BracketOpen | BracketClose
    | Eof | Error | Invalid

  /** Symbols that `parse_symbol` can consume. */
  predicate IsFixed(s: Symbol) {
    s.NamespaceKw? || s.IncludeKw? || s.StructKw? || s.MappingKw? || s.EncodingKw? || s.DeltaKw? ||
    s.Colon? || s.NamespaceSep? || s.CurlyOpen? || s.CurlyClose? || s.BracketOpen? || s.BracketClose?
  }

  type FixedSymbol = s: Symbol | IsFixed(s) witness Colon

  /** The text that spells a fixed symbol. */
  function Spelling(s: FixedSymbol): string {
    match s
    case NamespaceKw => "NAMESPACE"
    case IncludeKw => "INCLUDE"
    case StructKw => "STRUCT"
    case MappingKw => "MAPPING"
    case EncodingKw => "ENCODING"
    case DeltaKw => "DELTA"
    case Colon => ":"
    case NamespaceSep => "."
    case CurlyOpen => "{"
    case CurlyClose => "}"
    case BracketOpen => "["
    case BracketClose => "]"
  }

  /** `sizeof(keyword) - 1` for a keyword, 1 for a sign. */
  function SpellingLength(s: FixedSymbol): (n: nat)
    ensures n == |Spelling(s)|
  {
    match s
    case NamespaceKw => 9
    case IncludeKw => 7
    case StructKw => 6
    case MappingKw => 7
    case EncodingKw => 8
    case DeltaKw => 5
    case _ => 1
  }

  /** Every symbol a production can consume, with its value. */
  datatype Lexeme =
    | Fixed(symbol: FixedSymbol)
    | Name(text: string)
    | Quoted(content: string)
    | Whole(value: int64)

  /** What no production ever gets past. */
  datatype Terminal = EndOfInput | DottedNumber | BadCharacter | UnclosedString | HugeInteger

  datatype Scanned = Found(lexeme: Lexeme, extent: nat) | Stops(terminal: Terminal)

  function LexemeSymbol(l: Lexeme): Symbol {
    match l
    case Fixed(s) => s
    case Name(_) => Identifier
    case Quoted(_) => String
    case Whole(_) => Integer
  }

  function TerminalSymbol(t: Terminal): Symbol {
    match t
    case EndOfInput => Eof
    case DottedNumber => Number
    case BadCharacter => Error
    case UnclosedString => String
    case HugeInteger => Integer
  }

  function ScannedSymbol(r: Scanned): Symbol {
    match r
    case Found(l, _) => LexemeSymbol(l)
    case Stops(t) => TerminalSymbol(t)
  }

  // ---------------------------------------------------------------- characters

  /** Reading past the end gives NUL. */
  function CharAt(t: string, k: nat): char {
    if k < |t| then t[k] else '\0'
  }

  predicate IsDigit(c: char) { '0' <= c <= '9' }

  predicate IsLetter(c: char) { 'a' <= c <= 'z' || 'A' <= c <= 'Z' }

  predicate IsNameChar(c: char) { IsLetter(c) || IsDigit(c) || c == '_' }

  predicate IsBlank(c: char) { c == ' ' || c == '\t' || c == '\n' || c == '\r' }

  predicate IsLayout(c: char) { IsBlank(c) || c == '#' }

  predicate EndsComment(c: char) { c == '\0' || c == '\n' || c == '\r' }

  // ---------------------------------------------------------------- positions

  /** The text still to be read, and where it starts. */
  datatype Cursor = Cursor(text: string, pos: Position)

  function NextColumn(p: Position): Position { p.(column := p.column + 1) }

  function NextLine(p: Position): Position { p.(column := 0, line := p.line + 1) }

  /** How `advance` moves the position over one character. */
  function Over(p: Position, c: char): Position {
    if c == '\n' then NextLine(p) else NextColumn(p)
  }

  /** The position after the first n characters of t. */
  function Moved(p: Position, t: string, n: nat): Position
    requires n <= |t|
  {
    if n == 0 then p else Over(Moved(p, t, n - 1), t[n - 1])
  }

  function Advance(c: Cursor, n: nat): Cursor
    requires n <= |c.text|
  {
    Cursor(c.text[n..], Moved(c.pos, c.text, n))
  }

  // ---------------------------------------------------------------- layout

  function SkipComment(c: Cursor): (r: Cursor)
    ensures |r.text| <= |c.text|
    ensures EndsComment(CharAt(r.text, 0))
    decreases |c.text|
  {
    if EndsComment(CharAt(c.text, 0)) then c
    else SkipComment(Cursor(c.text[1..], NextColumn(c.pos)))
  }

  /** A carriage return moves neither line nor column. */
  function SkipLayout(c: Cursor): (r: Cursor)
    ensures |r.text| <= |c.text|
    ensures !IsLayout(CharAt(r.text, 0))
    decreases |c.text|
  {
    var h := CharAt(c.text, 0);
    if h == ' ' || h == '\t' then SkipLayout(Cursor(c.text[1..], NextColumn(c.pos)))
    else if h == '\n' then SkipLayout(Cursor(c.text[1..], NextLine(c.pos)))
    else if h == '\r' then SkipLayout(Cursor(c.text[1..], c.pos))
    else if h == '#' then SkipLayout(SkipComment(Cursor(c.text[1..], NextColumn(c.pos))))
    else c
  }

  // ---------------------------------------------------------------- symbols

  /** Where the name characters that start at k end. */
  function NameEnd(t: string, k: nat): (n: nat)
    requires k <= |t|
    ensures k <= n <= |t|
    decreases |t| - k
  {
    if IsNameChar(CharAt(t, k)) then NameEnd(t, k + 1) else k
  }

  function DigitsEnd(t: string, k: nat): (n: nat)
    requires k <= |t|
    ensures k <= n <= |t|
    decreases |t| - k
  {
    if IsDigit(CharAt(t, k)) then DigitsEnd(t, k + 1) else k
  }

  function DigitValue(c: char): nat {
    if IsDigit(c) then c as int - '0' as int else 0
  }

  /** The value of the digits between two offsets. */
  function DigitsValue(t: string, from: nat, end: nat): nat
    requires from <= end <= |t|
  {
    if from == end then 0 else DigitsValue(t, from, end - 1) * 10 + DigitValue(t[end - 1])
  }

  function Unescape(c: char): char {
    match c
    case 'n' => '\n'
    case 't' => '\t'
    case '0' => '\0'
    case _ => c
  }

  datatype StringScan = Closed(content: string, extent: nat) | Unclosed

  /** The string literal opened by `delim`, scanned from k on with `content` already read. */
  function ScanString(t: string, k: nat, delim: char, content: string): (r: StringScan)
    ensures r.Closed? ==> k < r.extent <= |t|
    decreases |t| - k
  {
    if k >= |t| then Unclosed
    else if t[k] == delim then Closed(content, k + 1)
    else if t[k] != '\\' then ScanString(t, k + 1, delim, content + [t[k]])
    else if k + 1 >= |t| then Unclosed
    else ScanString(t, k + 2, delim, content + [Unescape(t[k + 1])])
  }

  function NameOrKeyword(w: string): (l: Lexeme)
    ensures l == Name(w) || (l.Fixed? && Spelling(l.symbol) == w)
  {
    if w == "NAMESPACE" then Fixed(NamespaceKw)
    else if w == "INCLUDE" then Fixed(IncludeKw)
    else if w == "STRUCT" then Fixed(StructKw)
    else if w == "MAPPING" then Fixed(MappingKw)
    else if w == "ENCODING" then Fixed(EncodingKw)
    else if w == "DELTA" then Fixed(DeltaKw)
    else Name(w)
  }

  predicate StartsInteger(c: char) { IsDigit(c) || c == '-' || c == '+' }

  function IntegerStart(t: string): nat {
    if CharAt(t, 0) == '-' || CharAt(t, 0) == '+' then 1 else 0
  }

  const TWO63: int := 0x8000_0000_0000_0000

  /** The signed value of the digits up to n, when it fits. */
  function IntegerValue(t: string, n: nat): int64
    requires IntegerStart(t) <= n <= |t| && t != ""
    requires DigitsValue(t, IntegerStart(t), n) < TWO63
  {
    var v := DigitsValue(t, IntegerStart(t), n);
    (if t[0] == '-' then 0 - v else v) as int64
  }

  function ScanInteger(t: string): (r: Scanned)
    requires StartsInteger(CharAt(t, 0))
    ensures ScannedSymbol(r) == Integer || r == Stops(DottedNumber)
  {
    var n := DigitsEnd(t, 1);
    if CharAt(t, n) == '.' then Stops(DottedNumber)
    else
      if DigitsValue(t, IntegerStart(t), n) >= TWO63 then Stops(HugeInteger)
      else Found(Whole(IntegerValue(t, n)), n)
  }

  function SignOf(c: char): (s: Symbol)
    ensures s != Invalid ==> IsFixed(s) && Spelling(s) == [c]
  {
    match c
    case ':' => Colon
    case '.' => NamespaceSep
    case '{' => CurlyOpen
    case '}' => CurlyClose
    case '[' => BracketOpen
    case ']' => BracketClose
    case _ => Invalid
  }

  function ScanLiteral(t: string): (r: Scanned)
    requires t != ""
    ensures ScannedSymbol(r) == String
  {
    match ScanString(t, 1, t[0], "")
    case Closed(content, n) => Found(Quoted(content), n)
    case Unclosed => Stops(UnclosedString)
  }

  function ScanWord(t: string): (r: Scanned)
    requires t != ""
    ensures r.Found? && (r.lexeme.Name? || r.lexeme.Fixed?)
  {
    var n := NameEnd(t, 1);
    Found(NameOrKeyword(t[..n]), n)
  }

  /** The symbol at the start of a text whose layout has been skipped. */
  function Scan(t: string): (r: Scanned)
    ensures r.Found? ==> 0 < r.extent <= |t|
    ensures ScannedSymbol(r) != Invalid
  {
    var h := CharAt(t, 0);
    if h == '\0' then Stops(EndOfInput)
    else if StartsInteger(h) then ScanInteger(t)
    else if SignOf(h) != Invalid then Found(Fixed(SignOf(h)), 1)
    else if h == '\'' || h == '"' then
      ScanLiteral(t)
    else if IsLetter(h) then ScanWord(t)
    else Stops(BadCharacter)
  }

  // ---------------------------------------------------------------- token streams

  /** Tokens with their positions; every stream ends in a terminal. */
  datatype Stream =
    | Stop(terminal: Terminal, pos: Position)
    | Step(lexeme: Lexeme, pos: Position, tail: Stream)
  {
    function Size(): nat { if Stop? then 0 else 1 + tail.Size() }

    function Symbol(): (s: Symbol)
      ensures s != Invalid
    {
      if Stop? then TerminalSymbol(terminal) else LexemeSymbol(lexeme)
    }
  }

  function Tokens(c: Cursor): Stream
    decreases |c.text|
  {
    var at := SkipLayout(c);
    match Scan(at.text)
    case Stops(t) => Stop(t, at.pos)
    case Found(l, n) => Step(l, at.pos, Tokens(Advance(at, n)))
  }

  /** Where parsing of a whole text starts: line 1, column 0. */
  function Start(file: string, text: string): Cursor {
    Cursor(text, Position(file, 1, 0))
  }

  /** The first token, at a cursor whose layout has been skipped. */
  lemma TokenHead(c: Cursor)
    requires SkipLayout(c) == c
    ensures var r := Scan(c.text);
            Tokens(c) == if r.Stops? then Stop(r.terminal, c.pos)
                         else Step(r.lexeme, c.pos, Tokens(Advance(c, r.extent)))
  {
  }

  lemma SkipLayoutTwice(c: Cursor)
    ensures SkipLayout(SkipLayout(c)) == SkipLayout(c)
    ensures Tokens(SkipLayout(c)) == Tokens(c)
  {
  }
}
