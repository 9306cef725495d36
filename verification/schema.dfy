/** The input and output shapes of the schema compiler: schema entities with
    typed items (produced upstream by the parser), the table-name to path
    lookup (produced by the companion model compiler), and the generated files. */
module SchemaModel {

  /** The native kinds the compiler handles. */
  datatype NativeKind = Number | Boolean | String

  /** The type tag of an item. */
  datatype ItemType =
    | Native(kind: NativeKind)
    | Enum(enumName: string)
    | SchemaRef(schemaName: string)
    | TableRef(tableName: string)
  {
    /** Items of these kinds need an import in the generated file. */
    predicate IsReference() {
      SchemaRef? || TableRef?
    }

    /** Native numbers and booleans are coerced before validation. */
    predicate IsCoerced() {
      Native? && kind != String
    }

    /** The referenced schema or table name. */
    function RefName(): string
      requires IsReference()
    {
      if SchemaRef? then schemaName else tableName
    }
  }

  datatype Item = Item(key: string, required: bool, isArray: bool, itemType: ItemType)

  datatype Schema = Schema(name: string, items: seq<Item>)

  /** Table name to the logical path of the file that declares it. */
  type TablePaths = map<string, string>

  datatype CodegenFile = CodegenFile(filename: string, content: string)

  /** A compile result: the files to write and each schema's logical path. */
  datatype Output = Output(files: seq<CodegenFile>, paths: map<string, string>)
}
