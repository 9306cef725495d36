/** The compiler driver of index.ts: `buildFromSchema` renders one schema
    into one file and one path entry; `compile` does so for every schema and
    folds the results, failing as a whole on the first unresolved reference. */
module Compiler {
  import opened Wrappers
  import opened SchemaModel
  import opened Text
  import opened Fields
  import opened Dependencies

  /** The text of a generated file: the import lines, an empty line, then
      the lines of the class, joined by newlines. */
  function FileText(imports: seq<string>, schema: Schema): (text: string)
    ensures text == Terminated(imports, "\n") + "\n" + Join(SchemaContent(schema), "\n")
  {
    var body := SchemaContent(schema);
    JoinBlankSeparated(imports, body, "\n");
    Join(imports + [""] + body, "\n")
  }

  /** `buildFromSchema`. */
  function BuildFromSchema(schema: Schema, universe: seq<Schema>, tables: TablePaths)
    : (r: Result<Output, ResolveError>)
    ensures r.Success? <==> SchemaDependencies(schema.items, universe, tables).Success?
    ensures r.Failure? ==> r.error == SchemaDependencies(schema.items, universe, tables).error
    ensures r.Success? ==> (
      && |r.value.files| == 1
      && r.value.files[0].filename == SchemaFileName(schema.name, "") + ".ts"
      && r.value.files[0].content == FileText(SchemaDependencies(schema.items, universe, tables).value, schema)
      && r.value.paths.Keys == {schema.name}
      && r.value.paths[schema.name] == SchemaFileName(schema.name, ""))
  {
    var imports :- SchemaDependencies(schema.items, universe, tables);
    SchemaFileNames(schema.name, schema.name, ".ts");
    Success(Output(
      [CodegenFile(SchemaFileName(schema.name, ".ts"), FileText(imports, schema))],
      map[schema.name := SchemaFileName(schema.name, "")]))
  }

  /** Every reference of every schema resolves. */
  predicate AllResolvable(schemas: seq<Schema>, tables: TablePaths)
  {
    forall i, k :: 0 <= i < |schemas| && 0 <= k < |schemas[i].items| ==>
      Resolvable(schemas[i].items[k], schemas, tables)
  }

  /** `xs.map(f)` where `f` may throw: all results, or the error of the
      first element that fails. */
  function TryMap<X, Y(==), E(==)>(xs: seq<X>, f: X -> Result<Y, E>): (r: Result<seq<Y>, E>)
    ensures r.Success? <==> forall i :: 0 <= i < |xs| ==> f(xs[i]).Success?
    ensures r.Success? ==> (
      && |r.value| == |xs|
      && forall i :: 0 <= i < |xs| ==> f(xs[i]) == Success(r.value[i]))
    ensures r.Failure? ==> exists i :: (
      && 0 <= i < |xs|
      && (forall j :: 0 <= j < i ==> f(xs[j]).Success?)
      && f(xs[i]) == Failure(r.error))
  {
    if |xs| == 0 then Success([])
    else
      var first :- f(xs[0]);
      var rest := TryMap(xs[1..], f);
      match rest
      case Failure(e) =>
        var i :| 0 <= i < |xs[1..]|
          && (forall j :: 0 <= j < i ==> f(xs[1..][j]).Success?)
          && f(xs[1..][i]) == Failure(e);
        assert forall j :: 0 <= j < i + 1 ==> f(xs[j]).Success? by {
          forall j | 0 <= j < i + 1
            ensures f(xs[j]).Success?
          {
            if j > 0 {
              assert xs[j] == xs[1..][j - 1];
            }
          }
        }
        assert xs[i + 1] == xs[1..][i];
        Failure(e)
      case Success(ys) =>
        assert forall i :: 1 <= i < |xs| ==> xs[i] == xs[1..][i - 1];
        Success([first] + ys)
  }

  /** The files of every output, concatenated in order. */
  function MergeFiles(outs: seq<Output>): seq<CodegenFile>
  {
    if |outs| == 0 then [] else MergeFiles(outs[..|outs| - 1]) + outs[|outs| - 1].files
  }

  /** `{ ...accumulator, ...o.map }` folded over the outputs: on a shared key
      the later output's entry replaces the earlier one. */
  function MergePaths(outs: seq<Output>): map<string, string>
  {
    if |outs| == 0 then map[] else MergePaths(outs[..|outs| - 1]) + outs[|outs| - 1].paths
  }

  /** When every output has one file, the merged list is those files in order. */
  lemma {:induction false} MergeSingleFiles(outs: seq<Output>)
    requires forall i :: 0 <= i < |outs| ==> |outs[i].files| == 1
    ensures |MergeFiles(outs)| == |outs|
    ensures forall i :: 0 <= i < |outs| ==> MergeFiles(outs)[i] == outs[i].files[0]
    decreases |outs|
  {
    if |outs| > 0 {
      var init := outs[..|outs| - 1];
      assert forall i :: 0 <= i < |init| ==> init[i] == outs[i];
      MergeSingleFiles(init);
    }
  }

  /** The merged map has exactly the keys of the outputs. */
  lemma {:induction false} MergePathsKeys(outs: seq<Output>)
    ensures forall n :: n in MergePaths(outs) <==> exists i :: 0 <= i < |outs| && n in outs[i].paths
    decreases |outs|
  {
    if |outs| > 0 {
      var init := outs[..|outs| - 1];
      MergePathsKeys(init);
      assert forall i :: 0 <= i < |init| ==> init[i] == outs[i];
      forall n | n in MergePaths(outs)
        ensures exists i :: 0 <= i < |outs| && n in outs[i].paths
      {
        if n !in outs[|outs| - 1].paths {
          assert n in MergePaths(init);
        }
      }
    }
  }

  /** On a key several outputs share, the merged map keeps the value of the
      last output that has it. */
  lemma {:induction false} MergePathsLastWins(outs: seq<Output>, n: string, i: int)
    requires 0 <= i < |outs| && n in outs[i].paths
    requires forall j :: i < j < |outs| ==> n !in outs[j].paths
    ensures n in MergePaths(outs) && MergePaths(outs)[n] == outs[i].paths[n]
    decreases |outs|
  {
    var init := outs[..|outs| - 1];
    assert MergePaths(outs) == MergePaths(init) + outs[|outs| - 1].paths;
    if i < |outs| - 1 {
      assert forall j :: 0 <= j < |init| ==> init[j] == outs[j];
      MergePathsLastWins(init, n, i);
    }
  }

  /** `schemas.map(buildFromSchema)`: every schema's output in order, or the
      error of the first unresolved reference, schema by schema and item by item. */
  function BuildEach(schemas: seq<Schema>, tables: TablePaths): (r: Result<seq<Output>, ResolveError>)
    ensures r.Success? <==> AllResolvable(schemas, tables)
    ensures r.Success? ==> (
      && |r.value| == |schemas|
      && forall i :: 0 <= i < |schemas| ==> BuildFromSchema(schemas[i], schemas, tables) == Success(r.value[i]))
    ensures r.Failure? ==> exists i, k :: (
      && 0 <= i < |schemas|
      && (forall j, m :: 0 <= j < i && 0 <= m < |schemas[j].items| ==> Resolvable(schemas[j].items[m], schemas, tables))
      && FirstUnresolved(schemas[i].items, schemas, tables, k)
      && schemas[i].items[k].itemType.IsReference()
      && r.error == ErrorFor(schemas[i].items[k]))
  {
    var build := s => BuildFromSchema(s, schemas, tables);
    TryMap(schemas, build)
  }

  /** `compile`. */
  function Compile(schemas: seq<Schema>, tables: TablePaths): (r: Result<Output, ResolveError>)
    // totality on a closed universe, and fail-fast otherwise
    ensures r.Success? <==> AllResolvable(schemas, tables)
    // one file per schema, in schema order, each the one `buildFromSchema` renders
    ensures r.Success? ==> (
      && |r.value.files| == |schemas|
      && forall i :: 0 <= i < |schemas| ==> (
           && r.value.files[i].filename == SchemaFileName(schemas[i].name, "") + ".ts"
           && exists out :: (BuildFromSchema(schemas[i], schemas, tables) == Success(out)
                             && r.value.files[i] == out.files[0])))
    // one path entry per schema name, each the schema's logical path
    ensures r.Success? ==> (
      && (forall n :: n in r.value.paths <==> exists i :: 0 <= i < |schemas| && schemas[i].name == n)
      && forall n :: n in r.value.paths ==> r.value.paths[n] == SchemaFileName(n, ""))
    // the error is that of the first unresolved reference, schema by schema and item by item
    ensures r.Failure? ==> exists i, k :: (
      && 0 <= i < |schemas|
      && (forall j, m :: 0 <= j < i && 0 <= m < |schemas[j].items| ==> Resolvable(schemas[j].items[m], schemas, tables))
      && FirstUnresolved(schemas[i].items, schemas, tables, k)
      && schemas[i].items[k].itemType.IsReference()
      && r.error == ErrorFor(schemas[i].items[k]))
  {
    var outs :- BuildEach(schemas, tables);
    forall i | 0 <= i < |schemas|
      ensures SingleOutput(outs[i], schemas[i])
    {
      BuildShape(schemas[i], schemas, tables, outs[i]);
    }
    CompileOutputs(schemas, outs);
    Success(Output(MergeFiles(outs), MergePaths(outs)))
  }

  /** The shape of one schema's output: one file, one path entry. */
  predicate SingleOutput(out: Output, schema: Schema)
  {
    && |out.files| == 1
    && out.files[0].filename == SchemaFileName(schema.name, "") + ".ts"
    && out.paths == map[schema.name := SchemaFileName(schema.name, "")]
  }

  lemma BuildShape(schema: Schema, universe: seq<Schema>, tables: TablePaths, out: Output)
    requires BuildFromSchema(schema, universe, tables) == Success(out)
    ensures SingleOutput(out, schema)
  {
  }

  /** What the fold makes of the per-schema outputs. */
  lemma CompileOutputs(schemas: seq<Schema>, outs: seq<Output>)
    requires |outs| == |schemas|
    requires forall i :: 0 <= i < |schemas| ==> SingleOutput(outs[i], schemas[i])
    ensures |MergeFiles(outs)| == |schemas|
    ensures forall i :: 0 <= i < |schemas| ==> |outs[i].files| == 1 && MergeFiles(outs)[i] == outs[i].files[0]
    ensures forall n :: n in MergePaths(outs) <==> exists i :: 0 <= i < |schemas| && schemas[i].name == n
    ensures forall n :: n in MergePaths(outs) ==> MergePaths(outs)[n] == SchemaFileName(n, "")
  {
    MergeSingleFiles(outs);
    MergePathsKeys(outs);
    forall n | n in MergePaths(outs)
      ensures MergePaths(outs)[n] == SchemaFileName(n, "")
    {
      var i :| 0 <= i < |outs| && n in outs[i].paths;
      var last := LastHolder(outs, n, i);
      MergePathsLastWins(outs, n, last);
    }
    forall n | exists i :: 0 <= i < |schemas| && schemas[i].name == n
      ensures n in MergePaths(outs)
    {
      var i :| 0 <= i < |schemas| && schemas[i].name == n;
      assert n in outs[i].paths;
    }
  }

  /** The last output whose paths contain `n`, at or after `i`. */
  function LastHolder(outs: seq<Output>, n: string, i: nat): (j: nat)
    requires i < |outs| && n in outs[i].paths
    ensures i <= j < |outs| && n in outs[j].paths
    ensures forall m :: j < m < |outs| ==> n !in outs[m].paths
    decreases |outs| - i
  {
    if exists m :: i < m < |outs| && n in outs[m].paths then
      var m :| i < m < |outs| && n in outs[m].paths;
      LastHolder(outs, n, m)
    else i
  }
}
