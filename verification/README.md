# A verified model of the schema-to-TypeScript compiler

This project models `TypescriptSchema` from `index.ts`. That namespace compiles a list of schema entities into TypeScript class files. Each schema becomes one file, `./ts-schema/<name>.ts`. The file holds:

- one import line per `schema` or `table` item;
- an empty line;
- the class-transformer and class-validator imports;
- `export class <name> {`, then each item's decorators and its declaration line, indented by two spaces;
- a closing `}`.

`compile` also returns a map from each schema name to its logical path, `./ts-schema/<name>`. A reference that cannot be resolved throws in the source. Here it is a `Failure` of the whole compile, with no partial output.

Layout, following the source's structure:

- `wrappers.dfy`: `Result` and `Option`.
- `text.dfy`: `Join`, which is `Array.prototype.join`. Also the head of a decorator before its `(`, and substring search.
- `schema.dfy`: the input and output shapes. These are items with a key, a required flag, an array flag and a type tag (`native`, `enum`, `schema`, `table`), plus the table-path map and the generated files.
- `decorators.dfy`: `getDecorators`. The decorators are built as `Decorator` values, and `Render` prints each one as exactly the text the source emits.
- `fields.dfy`: `buildField` and `getSchemaContent`.
- `dependencies.dfy`: `getSchemaFileName` and `buildSchemaDependency`.
- `compiler.dfy`: `buildFromSchema` and `compile`.
- `properties.dfy`: properties that span several operations, and the two worked examples (`User`, and `Order` referring to `Product`).

Behaviours of the code worth noting:

- A table path is looked up with a JavaScript truthiness test (`!table_path`). So a table mapped to the empty string fails like a missing table (`HasTablePath`).
- Imports are not deduplicated. An item contributes one line per occurrence.
- For a non-array `schema` or `table` item, `@IsObject()` comes before `@ValidateNested()`.
- There is no plain-interface output mode in the code. Only the decorated class renderer exists.

## Model

| member | source | states |
|---|---|---|
| Decorators.Arguments | index.ts:97-143 | the text inside each decorator's parentheses, by definition the source's template for it: the `IsNotEmpty`, `IsNumber`, `IsBoolean`, `IsString` and `IsEnum` messages naming the key, with `, each: true` for arrays, the coercion text for `@Transform`, `{ each: true }` for array `ValidateNested`, and `() => <name>` for `@Type` |
| Decorators.Render | index.ts:97-143 | by definition `@`, the decorator's name, and its arguments in parentheses; Decorators.RenderedHead states what can be read back from it |
| Decorators.DecoratorsOf | index.ts:93-147 | exactly one requiredness decorator, first, `IsNotEmpty` with the key iff required; a `@Transform` exactly for native number/boolean, at position 1, array-aware iff the item is an array, decimal iff number; every `each` option equals the array flag; numbers get exactly three decorators ending with `IsNumber`, booleans three ending with `IsBoolean`, strings and enums get only `IsString`/`IsEnum`; references get four decorators, `IsArray`/`IsObject` second and `@Type(<name>)` last, and `@Type` appears iff the item is a reference |
| Decorators.TypeDecorators | index.ts:102-144 | after the requiredness gate: no requiredness decorator; a `@Transform` exactly for native number/boolean, first, array-aware iff the item is an array and decimal iff number, followed only by `IsNumber`/`IsBoolean`; every `each` option equals the array flag; strings and enums get exactly `IsString`/`IsEnum`; references get `IsArray`/`IsObject`, `ValidateNested` and `@Type(<name>)`, and `@Type` appears iff the item is a reference |
| Decorators.PresenceLineFirst | index.ts:96-100 | in the emitted text the first decorator line is `@IsNotEmpty(...)` containing the key when required and `@IsOptional()` otherwise, and no later line has either head |
| Decorators.NotEmptyMentionsKey | index.ts:97 | the `@IsNotEmpty` line contains the item's key |
| Decorators.RenderedHead | index.ts:93-147 | every emitted decorator line starts with `@` and names its decorator before the first `(` |
| Decorators.ReferenceLinesEndWithType | index.ts:124-144 | a reference item's lines are `@IsArray()`/`@IsObject()`, then `@ValidateNested({ each: true })`/`@ValidateNested()`, and they end with `@Type(() => <name>)` |
| Decorators.TransformLine | index.ts:102-111 | a number or boolean item's second line is `@Transform(...)` carrying the array decimal/boolean coercion text exactly when the item is an array |
| Fields.Declaration | index.ts:154 | by definition the key, `!` if required and `?` otherwise, `: `, the type name, and `[]` for arrays; Fields.DeclarationReadsBack states its inverse |
| Fields.FieldLines | index.ts:149-172 | an item's lines are its decorator lines, in order, followed by its declaration as the last line, at least three lines in all |
| Fields.FieldMember | index.ts:149-172 | for a key not starting with `@`: of the lines `buildField` yields for an item, exactly one is not a decorator: the declaration, which comes last |
| Fields.DeclarationReadsBack | index.ts:154 | for any key, and a type name not ending in `]`, the declaration line can be read back: it starts with the key, the next character is `!` iff required and `?` iff optional, then `: `, then the type name, and it ends in `[]` iff the item is an array |
| Fields.FieldBlock | index.ts:74-75 | the concatenation of every item's field lines, in item order, at least three lines per item; Fields.ClassMembersInOrder states what it keeps |
| Fields.Indent | index.ts:76 | one line per input line, each the input line after two spaces; Fields.UnindentIndent states its inverse |
| Fields.UnindentIndent | index.ts:76 | removing the two-space indent recovers the field lines, and every indented line starts with two spaces |
| Fields.SchemaContent | index.ts:69-79 | the class text is the two library imports, `export class <name> {`, each field line prefixed with exactly two spaces, in order (undoing the indent gives back the field lines), and `}` |
| Fields.ClassMembersInOrder | index.ts:74-75 | for keys not starting with `@`: the non-decorator lines of the concatenated fields are exactly the items' declarations, one per item, in item order |
| Fields.SchemaMembers | index.ts:69-79 | for keys not starting with `@`: inside the class, after the indent, the member lines are the declarations of the schema's items in order |
| Fields.DeclarationsInOrder | index.ts:74-75 | the k-th declaration belongs to the k-th item |
| Dependencies.SchemaFileName | index.ts:26-28 | by definition `./ts-schema/`, the schema name and the extension (empty for the logical path); Dependencies.SchemaFileNames states what can be read back |
| Dependencies.SchemaFileNames | index.ts:26-28 | a file name is the logical path plus the extension; the path is `./ts-schema/` followed by the name, so distinct names have distinct paths |
| Dependencies.Message | index.ts:38-44 | by definition the two thrown texts, `Schema "<name>" is not available` and `Table "<name>" is not available on models` |
| Dependencies.MessageNamesMissing | index.ts:36-45 | the error message of an unresolved schema or table contains the missing name |
| Dependencies.Find | index.ts:36 | the lookup finds nothing iff no schema has the name, otherwise the first schema with that name |
| Dependencies.ImportFor | index.ts:34-49 | a reference resolves iff its schema is in the list or its table has a non-empty path; the import then targets the schema's logical path or the table path; otherwise the error names the reference |
| Dependencies.References | index.ts:31-32 | the filter keeps exactly the `schema` and `table` items |
| Dependencies.ReferencesAppend | index.ts:31-32 | the filter distributes over concatenation, so it keeps the items in their order and with their repeats |
| Dependencies.ReferencesSnoc | index.ts:31-32 | appending one item to a schema adds it to the references exactly when it is a `schema` or `table` item |
| Dependencies.SchemaDependencies | index.ts:30-51 | succeeds iff every item resolves; it then returns one import per reference item, in item order, without deduplication; otherwise its error is that of the first unresolved item |
| Compiler.FileText | index.ts:57-61 | the file text is every import line terminated by a newline, one more newline (the empty line), then the class lines joined by newlines |
| Text.JoinBlankSeparated | index.ts:57-61 | joining a block, an empty line and a second block puts exactly one blank line between the two blocks |
| Compiler.BuildFromSchema | index.ts:53-67 | succeeds iff the schema's dependencies resolve, with their error otherwise; on success there is one file named `./ts-schema/<name>.ts` holding the import block and class, and one map entry `<name> -> ./ts-schema/<name>` |
| Compiler.TryMap | index.ts:18 | mapping with a throwing function gives all results in order, or the error of the first element that fails |
| Compiler.BuildEach | index.ts:18 | building every schema succeeds iff every reference of every schema resolves, giving each schema's `buildFromSchema` output in schema order; otherwise the error is that of the first unresolved reference, schema by schema and item by item |
| Compiler.MergeFiles | index.ts:21 | by definition the files of all outputs concatenated in output order; Compiler.MergeSingleFiles states the one-file case |
| Compiler.MergePaths | index.ts:22 | by definition the spread-merge of all output maps, a later entry replacing an earlier one; Compiler.MergePathsKeys and Compiler.MergePathsLastWins state its keys and values |
| Compiler.MergeSingleFiles | index.ts:21 | concatenating one-file outputs gives those files in output order |
| Compiler.MergePathsKeys | index.ts:22 | the merged map has exactly the keys of the outputs |
| Compiler.MergePathsLastWins | index.ts:22 | on a shared key, the merged map keeps the value of the last output that has it |
| Compiler.CompileOutputs | index.ts:20-23 | the merged outputs of all schemas give one file per schema in order, and one entry per schema name mapping to its logical path |
| Compiler.Compile | index.ts:17-24 | succeeds iff every reference in every schema resolves. On success: one file per schema in schema order, each named after its schema and equal to that schema's `buildFromSchema` file; the map keys are exactly the schema names, each mapped to `./ts-schema/<name>`. On failure: the error is that of the first unresolved reference, schema by schema and item by item |
| CompilerProperties.ImportsMatchPaths | index.ts:40-46 | after a successful compile, every schema import targets the path the output map records for that schema, and every table import targets the table's non-empty path |
| CompilerProperties.DanglingReferenceFails | index.ts:36-45 | a single unresolved reference anywhere makes the whole compile fail, with a message containing the name of an unresolved reference |
| CompilerProperties.OptionalNumberArray | index.ts:102-107 | an optional number array gets `@IsOptional()`, the array decimal transform and `@IsNumber` with `each`, then `key?: number[]` |
| CompilerProperties.UserScenario | index.ts:93-172 | `id` (required number) gets not-empty, decimal transform and `IsNumber` then `id!: number`; `roles` (optional enum array) gets `IsOptional` and array `IsEnum(Role)` then `roles?: Role[]`; the schema compiles |
| CompilerProperties.OrderScenario | index.ts:42-45 | a schema referring to the absent table `Product` fails with the missing-table error, whose message contains `Product` |

## Left out

- `exec.ts` is not part of this model. It covers argument checks, the external parser (which may fetch over HTTP), the companion model compiler, and directory creation and file writes. All of that is I/O. The table-path map it builds is a parameter of `Compile` here.
- The runtime meaning of the coercion strings (`parseFloat`, JavaScript truthiness, `Array.isArray`) is left out. They are only emitted as text, so the model keeps them as opaque constants. `transform_integer` and `transform_date` (index.ts:81-82, 90-91) are never emitted and are not modelled.
- The plain-interface (decorator-free) output mode is not modelled. No such renderer exists in `index.ts`, so shape equivalence between two modes has nothing to compare.
- Native kinds other than `number`, `boolean` and `string` are left out. The source's `switch` adds no type decorator for them. The external package types are re-declared as datatypes and a `map<string, string>`.
- The two fixed library import lines of `getSchemaContent` are opaque constants. One of them ends in a newline, as in the source.
- JavaScript object-property lookup is modelled as plain map membership. So a table name that collides with an `Object.prototype` member (e.g. `constructor`) resolves only if it is in the map.
- Fields.FieldMember: excludes a key that starts with `@`, because its declaration line would read as a decorator line. Every other key, the empty key included, is covered.
- Fields.ClassMembersInOrder: excludes a schema with an item key that starts with `@`, for the same reason as Fields.FieldMember.
- Fields.SchemaMembers: excludes a schema with an item key that starts with `@`, for the same reason as Fields.FieldMember.
- Fields.DeclarationReadsBack: excludes a type name that ends in `]`. With such a type, a non-array declaration could end in `[]`, and the array flag could not be read back. Every key is covered.
- Last-write-wins on duplicate schema names is stated generically by Compiler.MergePathsLastWins. For compile, every entry for a name is the same path, so the winner cannot be told apart.
