/** Consequences of the compiler's contracts across schemas, and two worked
    examples: a `User` schema, and an `Order` referring to a missing table
    `Product`. */
module CompilerProperties {
  import opened Wrappers
  import opened SchemaModel
  import opened Text
  import opened Decorators
  import opened Fields
  import opened Dependencies
  import opened Compiler

  /** Every schema import in the output points at the path the output map
      records for that schema, and every table import at the path the
      model compiler reported. */
  lemma ImportsMatchPaths(schemas: seq<Schema>, tables: TablePaths, i: int, k: int)
    requires Compile(schemas, tables).Success?
    requires 0 <= i < |schemas| && 0 <= k < |schemas[i].items|
    requires schemas[i].items[k].itemType.IsReference()
    ensures var item, out := schemas[i].items[k], Compile(schemas, tables).value;
      && Resolvable(item, schemas, tables)
      && (item.itemType.SchemaRef? ==>
            var n := item.itemType.schemaName;
            n in out.paths && ImportText(item, schemas, tables) == ImportLine(n, out.paths[n]))
      && (item.itemType.TableRef? ==>
            var n := item.itemType.tableName;
            HasTablePath(tables, n) && ImportText(item, schemas, tables) == ImportLine(n, tables[n]))
  {
    var item, out := schemas[i].items[k], Compile(schemas, tables).value;
    assert Resolvable(item, schemas, tables);
    if item.itemType.SchemaRef? {
      var n := item.itemType.schemaName;
      var j :| 0 <= j < |schemas| && schemas[j].name == n;
      assert n in out.paths;
    }
  }

  /** A dangling reference anywhere makes the whole compile fail, and the
      message names a reference that is missing. */
  lemma DanglingReferenceFails(schemas: seq<Schema>, tables: TablePaths, i: int, k: int)
    requires 0 <= i < |schemas| && 0 <= k < |schemas[i].items|
    requires !Resolvable(schemas[i].items[k], schemas, tables)
    ensures Compile(schemas, tables).Failure?
    ensures exists i', k' :: (
      && 0 <= i' < |schemas| && 0 <= k' < |schemas[i'].items|
      && schemas[i'].items[k'].itemType.IsReference()
      && !Resolvable(schemas[i'].items[k'], schemas, tables)
      && Contains(Message(Compile(schemas, tables).error), schemas[i'].items[k'].itemType.RefName()))
  {
    var e := Compile(schemas, tables).error;
    var i', k' :| 0 <= i' < |schemas| && FirstUnresolved(schemas[i'].items, schemas, tables, k')
      && schemas[i'].items[k'].itemType.IsReference() && e == ErrorFor(schemas[i'].items[k']);
    MessageNamesMissing(e);
  }

  /** An optional array of numbers: `@IsOptional()`, the array-aware
      decimal coercion, `@IsNumber` on each element, then `key?: number[]`. */
  lemma OptionalNumberArray(key: string)
    ensures var item := Item(key, false, true, Native(Number));
      && DecoratorsOf(item) == [IsOptional, Transform(ArrayDecimal), IsNumber(key, true)]
      && Declaration(item) == key + "?: number[]"
  {
  }

  /** A `User` with a required number `id` and an optional array of the
      enum `Role`. */
  lemma UserScenario()
    ensures var id := Item("id", true, false, Native(Number));
      var roles := Item("roles", false, true, Enum("Role"));
      && DecoratorsOf(id) == [IsNotEmpty("id"), Transform(Decimal), IsNumber("id", false)]
      && Declaration(id) == "id!: number"
      && DecoratorsOf(roles) == [IsOptional, IsEnum("Role", "roles", true)]
      && Declaration(roles) == "roles?: Role[]"
      && Compile([Schema("User", [id, roles])], map[]).Success?
  {
  }

  /** An `Order` referring to a table `Product` the model compiler did not
      report: the compile fails and the message names `Product`. */
  lemma OrderScenario()
    ensures var order := Schema("Order", [Item("product", true, false, TableRef("Product"))]);
      && Compile([order], map[]) == Failure(MissingTable("Product"))
      && Contains(Message(MissingTable("Product")), "Product")
  {
    var order := Schema("Order", [Item("product", true, false, TableRef("Product"))]);
    assert !Resolvable(order.items[0], [order], map[]);
    MessageNamesMissing(MissingTable("Product"));
  }
}
