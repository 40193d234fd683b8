/**
 All that is wrong with the printer's structs is their keyword: with STRUCT in the place of DATA a printed
 document is read back, but for mappings and encodings, which are not printed.
 */
module HappyRepair {
  import opened HappyAst
  import opened HappyLexer
  import opened HappyGrammar
  import opened HappyOrigins
  import opened HappyPrint
  import opened HappyRoundTrip
  import HappySyntax

  /** The texts one after the other, each behind the keyword. */
  function Joined(keyword: string, texts: seq<string>): string {
    if texts == [] then "" else keyword + (texts[0] + Joined(keyword, texts[1..]))
  }

  predicate IsStruct(s: Struct) {
    IsIdentifier(s.identifier) && forall i :: 0 <= i < |s.fields| ==> IsField(s.fields[i])
  }

  /** What is printed of a struct behind its keyword. */
  function Body(s: Struct): string {
    " " + (s.identifier + ("\n" + ("{" + ("\n" + (StructFieldsText(s.fields) + ("}" + "\n"))))))
  }

  function Bodies(ss: seq<Struct>): (r: seq<string>)
    ensures |r| == |ss|
  {
    if ss == [] then [] else [Body(ss[0])] + Bodies(ss[1..])
  }

  lemma BodyPrinted(s: Struct)
    ensures StructText(s) + "\n" == "DATA" + Body(s)
  {
    assert "DATA " == "DATA" + " " && "\n{\n" == "\n" + ("{" + "\n");
  }

  lemma {:induction false} BodiesPrinted(ss: seq<Struct>)
    ensures StructsText(ss) == Joined("DATA", Bodies(ss))
  {
    if ss != [] {
      BodyPrinted(ss[0]);
      BodiesPrinted(ss[1..]);
      assert Bodies(ss)[1..] == Bodies(ss[1..]);
      HappyPrint.Regroup("DATA", Body(ss[0]), StructsText(ss[1..]));
    }
  }

  function StructStream(s: Struct, k: Stream): Stream {
    Step(Fixed(StructKw), NOWHERE, Step(Name(s.identifier), NOWHERE, Step(Fixed(CurlyOpen), NOWHERE,
      FieldsStream(s.fields, Step(Fixed(CurlyClose), NOWHERE, k)))))
  }

  function StructsStream(ss: seq<Struct>, k: Stream): Stream {
    if ss == [] then k else StructStream(ss[0], StructsStream(ss[1..], k))
  }

  lemma BodyGroup(id: string, fields: string, rest: string)
    ensures (" " + (id + ("\n" + ("{" + ("\n" + (fields + ("}" + "\n"))))))) + rest
            == " " + (id + ("\n" + ("{" + ("\n" + (fields + ("}" + ("\n" + rest)))))))
  {
  }

  lemma BlockRead(s: Struct, rest: string)
    requires IsStruct(s)
    ensures Read("{" + ("\n" + (StructFieldsText(s.fields) + ("}" + ("\n" + rest)))))
            == Step(Fixed(CurlyOpen), NOWHERE, FieldsStream(s.fields, Step(Fixed(CurlyClose), NOWHERE, Read(rest))))
  {
    var inside := StructFieldsText(s.fields) + ("}" + ("\n" + rest));
    ReadSign('{', "\n" + inside);
    ReadBlank('\n', inside);
    FieldsWritten(s.fields, "\n" + rest);
    ReadBlank('\n', rest);
  }

  lemma RepairedRead(s: Struct, rest: string)
    requires IsStruct(s)
    ensures Read("STRUCT" + (Body(s) + rest)) == StructStream(s, Read(rest))
  {
    var block := "{" + ("\n" + (StructFieldsText(s.fields) + ("}" + ("\n" + rest))));
    BodyGroup(s.identifier, StructFieldsText(s.fields), rest);
    ReadWord("STRUCT", " " + (s.identifier + ("\n" + block)));
    ReadBlank(' ', s.identifier + ("\n" + block));
    ReadWord(s.identifier, "\n" + block);
    ReadBlank('\n', block);
    BlockRead(s, rest);
  }

  lemma {:induction false} RepairedReads(ss: seq<Struct>)
    requires forall i :: 0 <= i < |ss| ==> IsStruct(ss[i])
    ensures Read(Joined("STRUCT", Bodies(ss))) == StructsStream(ss, Stop(EndOfInput, NOWHERE))
    decreases |ss|
  {
    if ss == [] {
      TokenHead(Cursor("", NOWHERE));
    } else {
      RepairedReads(ss[1..]);
      assert Bodies(ss)[1..] == Bodies(ss[1..]);
      RepairedRead(ss[0], Joined("STRUCT", Bodies(ss[1..])));
    }
  }

  lemma StructParsed(s: Struct, k: Stream)
    ensures ParseStruct(StructStream(s, k)) == Done(ForgetStruct(s), k)
  {
    var close := Step(Fixed(CurlyClose), NOWHERE, k);
    FieldsStreamReadBack(s.fields, close, []);
    HappySyntax.Unit(ForgetStructFields(s.fields));
    HappySyntax.StructBlock(NOWHERE, FieldsStream(s.fields, close), ForgetStructFields(s.fields), NOWHERE, k);
  }

  function ForgetStructs(ss: seq<Struct>): seq<Struct> {
    seq(|ss|, i requires 0 <= i < |ss| => ForgetStruct(ss[i]))
  }

  lemma ForgetFirstStruct(ss: seq<Struct>)
    requires ss != []
    ensures ForgetStructs(ss) == [ForgetStruct(ss[0])] + ForgetStructs(ss[1..])
  {
  }

  lemma StructDeclared(s: Struct, k: Stream, root: Root)
    ensures Declarations(StructStream(s, k), root) == Declarations(k, root.(structs := root.structs + [ForgetStruct(s)]))
  {
    StructParsed(s, k);
  }

  lemma {:induction false} StructsParsed(ss: seq<Struct>, root: Root)
    ensures Declarations(StructsStream(ss, Stop(EndOfInput, NOWHERE)), root)
            == Done(root.(structs := root.structs + ForgetStructs(ss)), Stop(EndOfInput, NOWHERE))
    decreases |ss|
  {
    if ss == [] {
      assert ForgetStructs(ss) == [];
      HappySyntax.Unit(root.structs);
    } else {
      StructDeclared(ss[0], StructsStream(ss[1..], Stop(EndOfInput, NOWHERE)), root);
      StructsParsed(ss[1..], root.(structs := root.structs + [ForgetStruct(ss[0])]));
      ForgetFirstStruct(ss);
      HappySyntax.Regroup(root.structs, ForgetStruct(ss[0]), ForgetStructs(ss[1..]));
    }
  }

  /** The root that is read, with its parts in the order they are read. */
  function ReadRoot(r: Root): Root {
    EmptyRoot(NOWHERE).(includes := ForgetIncludes(r.includes), space := r.space)
  }

  lemma ReadRootIs(r: Root)
    ensures ReadRoot(r).(structs := ReadRoot(r).structs + ForgetStructs(r.structs)) == ForgetRoot(r.(mappings := [], encodings := []))
  {
    var f := ForgetRoot(r.(mappings := [], encodings := []));
    assert f.mappings == [] && f.encodings == [];
    assert f.includes == ForgetIncludes(r.includes) && f.structs == ForgetStructs(r.structs);
  }

  lemma RepairedParsed(r: Root)
    ensures var k := StructsStream(r.structs, Stop(EndOfInput, NOWHERE));
            ParseDocument(IncludesStream(r.includes, SpaceStream(r.space, k)), NOWHERE)
            == Done(ForgetRoot(r.(mappings := [], encodings := [])), Stop(EndOfInput, NOWHERE))
  {
    var k := StructsStream(r.structs, Stop(EndOfInput, NOWHERE));
    HeaderReadsBack(r.includes, r.space, k);
    StructsParsed(r.structs, ReadRoot(r));
    ReadRootIs(r);
  }

  /**
   A printed document is a head and the printed structs, each behind DATA; with STRUCT in its place the text
   is parsed as the document without its mappings and encodings.
   */
  lemma OnlyTheKeywordIsWrong(file: string, r: Root) returns (head: string, bodies: seq<string>)
    requires IsSpace(r.space) && AreClean(r.includes) && forall i :: 0 <= i < |r.structs| ==> IsStruct(r.structs[i])
    ensures RootText(r) == head + Joined("DATA", bodies) && |bodies| == |r.structs|
    ensures var o := ParseText(file, head + Joined("STRUCT", bodies));
            o.Done? && ForgetRoot(o.value) == ForgetRoot(r.(mappings := [], encodings := []))
  {
    head, bodies := IncludesText(r.includes) + NamespaceText(r.space), Bodies(r.structs);
    var structs := Joined("STRUCT", bodies);
    BodiesPrinted(r.structs);
    HappyPrint.Regroup(IncludesText(r.includes), NamespaceText(r.space), StructsText(r.structs));
    HappyPrint.Regroup(IncludesText(r.includes), NamespaceText(r.space), structs);
    IncludesWritten(r.includes, NamespaceText(r.space) + structs);
    SpaceWritten(r.space, structs);
    RepairedReads(r.structs);
    RepairedParsed(r);
    var start := Start(file, head + structs);
    ReadAnywhere(head + structs, start.pos);
    DocumentForgets(Tokens(start), start.pos);
  }
}
