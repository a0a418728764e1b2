/**
 * The part of the Babel AST of a TypeScript declaration file that the extraction pass of
 * src/generateShim.js reads. Node kinds the pass tests by their `type` string are
 * constructors here; an optional property is an `Option`, `None` standing for a missing
 * or `undefined` property.
 */
module Ast {
  import opened Js

  /** A type annotation node: its `type`, the `typeName.name` of a type reference, the
      `typeParameters.params` of a generic reference and the `types` of a union. */
  datatype TsType = TsType(
    kind: string,
    typeName: Option<string>,
    typeParameters: Option<seq<TsType>>,
    types: seq<TsType>)

  /** A function parameter: a plain identifier has its own `name`, a rest element names
      its `argument`. `annotation` is `typeAnnotation.typeAnnotation`. */
  datatype Param =
    | Identifier(name: string, annotation: Option<TsType>)
    | RestElement(argumentName: string, annotation: Option<TsType>)

  /** A member of an enum: `id.name`, `initializer.value` and the values of its
      `leadingComments`. */
  datatype EnumMember = EnumMember(id: string, initializer: Option<string>, leadingComments: Option<seq<string>>)

  /** A statement of the program or of a module body. */
  datatype Statement =
    | ModuleDeclaration(body: seq<Statement>)
    | EnumDeclaration(id: string, leadingComments: Option<seq<string>>, members: seq<EnumMember>)
    | DeclareFunction(id: string, leadingComments: Option<seq<string>>, returnType: Option<TsType>, params: seq<Param>)
    | OtherStatement(kind: string)

  /** The two keys `has` is asked about on a type annotation. */
  datatype Key = TypeName | TypeParameters

  /** `has(obj, key)`: false for a missing object, otherwise whether the object has
      the key as an own property. */
  predicate Has(obj: Option<TsType>, key: Key)
  {
    match obj
    case None => false
    case Some(t) => if key == TypeName then t.typeName.Some? else t.typeParameters.Some?
  }
}
