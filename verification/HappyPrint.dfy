/**
 The printer of `happy`: what it writes, and that it writes it by appending to a stream.
 */
module HappyPrint {
  import opened HappyAst

  function QualifiedText(q: QualifiedIdentifier): string
    decreases |q.space|
  {
    if q.space == [] then q.name
    else q.space[0] + "." + QualifiedText(q.(space := q.space[1..]))
  }

  function Digit(d: nat): char
    requires d < 10
  {
    (d + '0' as int) as char
  }

  function Decimal(n: nat): string {
    if n < 10 then [Digit(n)] else Decimal(n / 10) + [Digit(n % 10)]
  }

  function IntegerText(n: int64): string {
    if n < 0 then "-" + Decimal(-(n as int)) else Decimal(n as int)
  }

  function TypeText(t: Type): string {
    QualifiedText(t.identifier) + if t.arraySize.NotArray? then "" else "[" + IntegerText(t.arraySize.size) + "]"
  }

  function StructFieldText(f: StructField): string {
    f.identifier + ": " + TypeText(f.typ)
  }

  function StructFieldsText(fs: seq<StructField>): string {
    if fs == [] then "" else (" " + StructFieldText(fs[0]) + "\n") + StructFieldsText(fs[1..])
  }

  /** The printer writes DATA where the parser wants STRUCT. */
  function StructText(s: Struct): string {
    ("DATA " + s.identifier + "\n{\n") + (StructFieldsText(s.fields) + "}")
  }

  function StructsText(ss: seq<Struct>): string {
    if ss == [] then "" else (StructText(ss[0]) + "\n") + StructsText(ss[1..])
  }

  /** The path is written as it is, without escapes. */
  function IncludeText(i: Include): string {
    "INCLUDE '" + i.path + "'"
  }

  function IncludesText(incs: seq<Include>): string {
    if incs == [] then "" else (IncludeText(incs[0]) + "\n") + IncludesText(incs[1..])
  }

  function NamespaceText(q: QualifiedIdentifier): string {
    if q.name == "" then "" else "NAMESPACE " + QualifiedText(q) + "\n"
  }

  /** Mappings and encodings are not printed. */
  function RootText(r: Root): string {
    IncludesText(r.includes) + (NamespaceText(r.space) + StructsText(r.structs))
  }

  class Output {
    var text: string

    constructor ()
      ensures text == ""
    {
      text := "";
    }

    method Put(s: string)
      modifies this
      ensures text == old(text) + s
    {
      text := text + s;
    }

    method PutQualified(q: QualifiedIdentifier)
      modifies this
      ensures text == old(text) + QualifiedText(q)
    {
      var i := 0;
      while i < |q.space|
        invariant i <= |q.space|
        invariant text + QualifiedText(q.(space := q.space[i..])) == old(text) + QualifiedText(q)
      {
        ghost var rest := q.(space := q.space[i..]);
        assert rest.space[1..] == q.space[i + 1..];
        Put(q.space[i] + ".");
        i := i + 1;
      }
      Put(q.name);
    }

    method PutType(t: Type)
      modifies this
      ensures text == old(text) + TypeText(t)
    {
      PutQualified(t.identifier);
      if t.arraySize.ArrayOf? {
        Put("[" + IntegerText(t.arraySize.size) + "]");
      }
    }

    method PutStructField(f: StructField)
      modifies this
      ensures text == old(text) + (" " + StructFieldText(f) + "\n")
    {
      Put(" ");
      Put(f.identifier + ": ");
      PutType(f.typ);
      Put("\n");
      Regroup4(old(text), " ", f.identifier + ": ", TypeText(f.typ), "\n");
    }

    method PutStruct(s: Struct)
      modifies this
      ensures text == old(text) + StructText(s)
    {
      Put("DATA " + s.identifier + "\n{\n");
      ghost var start := text;
      var i := 0;
      while i < |s.fields|
        invariant i <= |s.fields| && text + StructFieldsText(s.fields[i..]) == start + StructFieldsText(s.fields)
      {
        ghost var before, f, rest := text, s.fields[i], s.fields[i + 1..];
        assert s.fields[i..][0] == f && s.fields[i..][1..] == rest;
        PutStructField(s.fields[i]);
        Regroup(before, " " + StructFieldText(f) + "\n", StructFieldsText(rest));
        i := i + 1;
      }
      assert text + "" == text;
      Put("}");
      Regroup(old(text), "DATA " + s.identifier + "\n{\n", StructFieldsText(s.fields) + "}");
      Regroup(start, StructFieldsText(s.fields), "}");
    }

    method PutIncludes(incs: seq<Include>)
      modifies this
      ensures text == old(text) + IncludesText(incs)
    {
      var i := 0;
      while i < |incs|
        invariant i <= |incs| && text + IncludesText(incs[i..]) == old(text) + IncludesText(incs)
      {
        ghost var before, inc, rest := text, incs[i], incs[i + 1..];
        assert incs[i..][0] == inc && incs[i..][1..] == rest;
        Put("INCLUDE '" + incs[i].path + "'");
        Put("\n");
        Regroup(before, IncludeText(inc), "\n");
        Regroup(before, IncludeText(inc) + "\n", IncludesText(rest));
        i := i + 1;
      }
      assert text + "" == text;
    }

    method PutStructs(ss: seq<Struct>)
      modifies this
      ensures text == old(text) + StructsText(ss)
    {
      var i := 0;
      while i < |ss|
        invariant i <= |ss| && text + StructsText(ss[i..]) == old(text) + StructsText(ss)
      {
        ghost var before, s, rest := text, ss[i], ss[i + 1..];
        assert ss[i..][0] == s && ss[i..][1..] == rest;
        PutStruct(ss[i]);
        Put("\n");
        Regroup(before, StructText(s), "\n");
        Regroup(before, StructText(s) + "\n", StructsText(rest));
        i := i + 1;
      }
      assert text + "" == text;
    }

    method PutNamespace(q: QualifiedIdentifier)
      modifies this
      ensures text == old(text) + NamespaceText(q)
    {
      if q.name != "" {
        Put("NAMESPACE ");
        PutQualified(q);
        Put("\n");
        Regroup(old(text), "NAMESPACE ", QualifiedText(q));
        Regroup(old(text), "NAMESPACE " + QualifiedText(q), "\n");
      }
    }

    method PutRoot(r: Root)
      modifies this
      ensures text == old(text) + RootText(r)
    {
      PutIncludes(r.includes);
      PutNamespace(r.space);
      PutStructs(r.structs);
      Regroup(old(text) + IncludesText(r.includes), NamespaceText(r.space), StructsText(r.structs));
      Regroup(old(text), IncludesText(r.includes), NamespaceText(r.space) + StructsText(r.structs));
    }
  }

  lemma Regroup(a: string, b: string, c: string)
    ensures (a + b) + c == a + (b + c)
  {
  }

  lemma Regroup4(t: string, a: string, b: string, c: string, d: string)
    ensures t + a + b + c + d == t + (a + (b + c) + d)
  {
  }
}
