/** The dependency resolver of index.ts (`getSchemaFileName`,
    `buildSchemaDependency`): one import line per `schema` or `table` item,
    failing on the first reference that cannot be resolved. */
module Dependencies {
  import opened Wrappers
  import opened SchemaModel
  import opened Text

  /** The fixed directory every generated schema file lives in. */
  const SchemaDir: string := "./ts-schema/"

  /** `getSchemaFileName`: the schema's logical path, followed by
      `extension` (the empty string when the caller passes none). */
  function SchemaFileName(name: string, extension: string): string
  {
    SchemaDir + name + extension
  }

  /** The file name is the logical path with the extension appended, and
      distinct names never share a path. */
  lemma SchemaFileNames(a: string, b: string, extension: string)
    ensures SchemaFileName(a, extension) == SchemaFileName(a, "") + extension
    ensures SchemaFileName(a, "")[..|SchemaDir|] == SchemaDir
    ensures SchemaFileName(a, "")[|SchemaDir|..] == a
    ensures SchemaFileName(a, "") == SchemaFileName(b, "") <==> a == b
  {
    if SchemaFileName(a, "") == SchemaFileName(b, "") {
      assert SchemaFileName(b, "")[|SchemaDir|..] == b;
    }
  }

  /** The two resolution failures; each names what is missing. */
  datatype ResolveError = MissingSchema(name: string) | MissingTable(name: string)

  /** The text of the thrown `Error`. */
  function Message(e: ResolveError): string
  {
    match e
    case MissingSchema(n) => "Schema \"" + n + "\" is not available"
    case MissingTable(n) => "Table \"" + n + "\" is not available on models"
  }

  lemma MessageNamesMissing(e: ResolveError)
    ensures Contains(Message(e), e.name)
  {
    match e
    case MissingSchema(n) => ContainsMiddle("Schema \"", n, "\" is not available");
    case MissingTable(n) => ContainsMiddle("Table \"", n, "\" is not available on models");
  }

  /** `list_schema.find`: the first schema with exactly that name. */
  function Find(universe: seq<Schema>, name: string): (r: Option<Schema>)
    ensures r.None? <==> forall i :: 0 <= i < |universe| ==> universe[i].name != name
    ensures r.Some? ==> exists i :: (
      && 0 <= i < |universe| && universe[i] == r.value
      && universe[i].name == name && forall j :: 0 <= j < i ==> universe[j].name != name)
  {
    if |universe| == 0 then None
    else if universe[0].name == name then Some(universe[0])
    else
      var r := Find(universe[1..], name);
      assert r.Some? ==> exists i :: (
        && 0 <= i < |universe[1..]| && universe[1..][i] == r.value
        && universe[1..][i].name == name && universe[i + 1] == r.value
        && forall j :: 0 <= j < i + 1 ==> universe[j].name != name);
      r
  }

  /** A table path counts only when it is a non-empty string: the source
      tests the looked-up path for JavaScript truthiness. */
  predicate HasTablePath(tables: TablePaths, name: string)
  {
    name in tables && tables[name] != ""
  }

  /** An item resolves when it is not a reference, or when the schema or
      table it names is available. */
  predicate Resolvable(item: Item, universe: seq<Schema>, tables: TablePaths)
  {
    match item.itemType
    case SchemaRef(n) => exists i :: 0 <= i < |universe| && universe[i].name == n
    case TableRef(n) => HasTablePath(tables, n)
    case _ => true
  }

  /** The error thrown for an unresolved reference. */
  function ErrorFor(item: Item): (e: ResolveError)
    requires item.itemType.IsReference()
    ensures e.name == item.itemType.RefName()
    ensures e.MissingSchema? <==> item.itemType.SchemaRef?
  {
    if item.itemType.SchemaRef? then MissingSchema(item.itemType.schemaName)
    else MissingTable(item.itemType.tableName)
  }

  function ImportLine(name: string, path: string): string
  {
    "import { " + name + " } from '." + path + "'"
  }

  /** The import a resolved reference produces: a schema is imported from
      its logical path, a table from the path the model compiler reported. */
  function ImportText(item: Item, universe: seq<Schema>, tables: TablePaths): string
    requires item.itemType.IsReference() && Resolvable(item, universe, tables)
  {
    match item.itemType
    case SchemaRef(n) => ImportLine(n, SchemaFileName(n, ""))
    case TableRef(n) => ImportLine(n, tables[n])
  }

  /** The resolution of one reference item. */
  function ImportFor(item: Item, universe: seq<Schema>, tables: TablePaths): (r: Result<string, ResolveError>)
    requires item.itemType.IsReference()
    ensures r.Success? <==> Resolvable(item, universe, tables)
    ensures r.Success? ==> r.value == ImportText(item, universe, tables)
    ensures r.Failure? ==> r.error == ErrorFor(item)
  {
    if item.itemType.SchemaRef? then
      match Find(universe, item.itemType.schemaName)
      case None => Failure(MissingSchema(item.itemType.schemaName))
      case Some(s) => Success(ImportLine(s.name, SchemaFileName(s.name, "")))
    else
      var name := item.itemType.tableName;
      if name in tables && tables[name] != "" then Success(ImportLine(name, tables[name]))
      else Failure(MissingTable(name))
  }

  /** The items that need an import, in item order. */
  function References(items: seq<Item>): (r: seq<Item>)
    ensures |r| <= |items|
    ensures forall x :: x in r <==> x in items && x.itemType.IsReference()
  {
    if |items| == 0 then []
    else (if items[0].itemType.IsReference() then [items[0]] else []) + References(items[1..])
  }

  /** The filter distributes over concatenation, so it keeps the items in
      their order and with their repeats. */
  lemma {:induction false} ReferencesAppend(a: seq<Item>, b: seq<Item>)
    ensures References(a + b) == References(a) + References(b)
    decreases |a|
  {
    if |a| > 0 {
      assert (a + b)[1..] == a[1..] + b;
      ReferencesAppend(a[1..], b);
    } else {
      assert a + b == b;
    }
  }

  /** Appending one item adds it to the references exactly when it is one. */
  lemma ReferencesSnoc(items: seq<Item>, x: Item)
    ensures References(items + [x]) == References(items) + (if x.itemType.IsReference() then [x] else [])
  {
    ReferencesAppend(items, [x]);
  }

  /** `k` is the first item of `items` that does not resolve. */
  predicate FirstUnresolved(items: seq<Item>, universe: seq<Schema>, tables: TablePaths, k: int)
  {
    && 0 <= k < |items|
    && !Resolvable(items[k], universe, tables)
    && forall j :: 0 <= j < k ==> Resolvable(items[j], universe, tables)
  }

  lemma FirstUnresolvedShift(items: seq<Item>, universe: seq<Schema>, tables: TablePaths, k: int)
    requires |items| > 0 && Resolvable(items[0], universe, tables)
    requires FirstUnresolved(items[1..], universe, tables, k)
    ensures FirstUnresolved(items, universe, tables, k + 1)
  {
    assert items[k + 1] == items[1..][k];
    forall j | 0 <= j < k + 1
      ensures Resolvable(items[j], universe, tables)
    {
      if j > 0 {
        assert items[j] == items[1..][j - 1];
      }
    }
  }

  /** The imports of a resolved list are the imports of its head (if it is
      a reference) followed by those of its tail. */
  lemma ImportsCons(items: seq<Item>, universe: seq<Schema>, tables: TablePaths, lines: seq<string>)
    requires |items| > 0 && items[0].itemType.IsReference()
    requires forall k :: 0 <= k < |items| ==> Resolvable(items[k], universe, tables)
    requires |lines| == |References(items[1..])|
    requires forall k :: 0 <= k < |lines| ==> lines[k] == ImportText(References(items[1..])[k], universe, tables)
    ensures var all := [ImportText(items[0], universe, tables)] + lines;
      && |all| == |References(items)|
      && forall k :: 0 <= k < |all| ==> all[k] == ImportText(References(items)[k], universe, tables)
  {
    var refs := References(items);
    assert refs == [items[0]] + References(items[1..]);
  }

  /** Every item of a schema resolves. */
  predicate AllResolve(items: seq<Item>, universe: seq<Schema>, tables: TablePaths)
  {
    forall k :: 0 <= k < |items| ==> Resolvable(items[k], universe, tables)
  }

  lemma AllResolveCons(items: seq<Item>, universe: seq<Schema>, tables: TablePaths)
    requires |items| > 0
    ensures AllResolve(items, universe, tables)
        <==> Resolvable(items[0], universe, tables) && AllResolve(items[1..], universe, tables)
  {
    assert forall k :: 1 <= k < |items| ==> items[k] == items[1..][k - 1];
  }

  /** `buildSchemaDependency` over a schema's items. */
  function SchemaDependencies(items: seq<Item>, universe: seq<Schema>, tables: TablePaths)
    : (r: Result<seq<string>, ResolveError>)
    ensures r.Success? <==> AllResolve(items, universe, tables)
    ensures r.Success? ==> (
      && |r.value| == |References(items)|
      && forall k :: 0 <= k < |r.value| ==> r.value[k] == ImportText(References(items)[k], universe, tables))
    ensures r.Failure? ==> exists k :: (
      && FirstUnresolved(items, universe, tables, k)
      && items[k].itemType.IsReference()
      && r.error == ErrorFor(items[k]))
  {
    if |items| == 0 then Success([])
    else
      var rest := SchemaDependencies(items[1..], universe, tables);
      AllResolveCons(items, universe, tables);
      if !items[0].itemType.IsReference() then
        (if rest.Failure? then
           var k :| FirstUnresolved(items[1..], universe, tables, k)
             && items[1..][k].itemType.IsReference() && rest.error == ErrorFor(items[1..][k]);
           FirstUnresolvedShift(items, universe, tables, k);
           rest
         else
           assert References(items) == References(items[1..]);
           rest)
      else
        match ImportFor(items[0], universe, tables)
        case Failure(e) =>
          assert FirstUnresolved(items, universe, tables, 0);
          Failure(e)
        case Success(line) =>
          match rest
          case Failure(e) =>
            var k :| FirstUnresolved(items[1..], universe, tables, k)
              && items[1..][k].itemType.IsReference() && rest.error == ErrorFor(items[1..][k]);
            FirstUnresolvedShift(items, universe, tables, k);
            Failure(e)
          case Success(lines) =>
            ImportsCons(items, universe, tables, lines);
            Success([line] + lines)
  }
}
