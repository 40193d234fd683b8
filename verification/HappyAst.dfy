/** The syntax tree of the `happy` schema language, one datatype per node class. */
module HappyAst {

  newtype int64 = x: int | -0x8000_0000_0000_0000 <= x < 0x8000_0000_0000_0000

  datatype Position = Position(file: string, line: int, column: int)

  datatype QualifiedIdentifier = QualifiedIdentifier(space: seq<string>, name: string)

  /** `array_size` has a value only when `is_array` is set. */
  datatype ArraySize = NotArray | ArrayOf(size: int64)

  datatype Type = Type(identifier: QualifiedIdentifier, arraySize: ArraySize)

  datatype StructField = StructField(identifier: string, typ: Type, origin: Position)

  datatype Struct = Struct(identifier: string, fields: seq<StructField>, origin: Position)

  datatype MappingField = MappingField(identifier: string, mapping: string, origin: Position)

  datatype Mapping = Mapping(structId: string, category: QualifiedIdentifier, fields: seq<MappingField>, origin: Position)

  datatype EncodingNode =
    | EncodingField(identifier: string, encoding: string, origin: Position)
    | DeltaBlock(fields: seq<EncodingNode>, origin: Position)

  datatype Encoding = Encoding(structId: string, encoId: string, fields: seq<EncodingNode>, origin: Position)

  datatype Include = Include(path: string, origin: Position)

  /** A document without a NAMESPACE line keeps the empty qualified identifier. */
  datatype Root = Root(
    includes: seq<Include>,
    space: QualifiedIdentifier,
    structs: seq<Struct>,
    mappings: seq<Mapping>,
    encodings: seq<Encoding>,
    origin: Position)

  const NO_NAMESPACE := QualifiedIdentifier([], "")

  function EmptyRoot(origin: Position): Root {
    Root([], NO_NAMESPACE, [], [], [], origin)
  }
}
