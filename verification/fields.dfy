/** The member renderer of index.ts: `buildField` (decorators, then one
    declaration line) and `getSchemaContent` (the class around the fields). */
module Fields {
  import opened SchemaModel
  import opened Decorators

  /** The TypeScript type of an item without the array marker. */
  function TypeName(t: ItemType): string
  {
    match t
    case Native(Number) => "number"
    case Native(Boolean) => "boolean"
    case Native(String) => "string"
    case Enum(n) => n
    case SchemaRef(n) => n
    case TableRef(n) => n
  }

  /** `key!: T` for required items and `key?: T` otherwise, with `[]` for arrays. */
  function Declaration(item: Item): string
  {
    item.key + (if item.required then "!" else "?") + ": " + TypeName(item.itemType)
      + (if item.isArray then "[]" else "")
  }

  /** `buildField`: the item's decorator lines followed by its declaration. */
  function FieldLines(item: Item): (r: seq<string>)
    ensures |r| == |DecoratorsOf(item)| + 1 >= 3
    ensures r[..|r| - 1] == DecoratorLines(item)
    ensures r[|r| - 1] == Declaration(item)
  {
    DecoratorLines(item) + [Declaration(item)]
  }

  /** The fields of a class, each `buildField` appended in item order. */
  function FieldBlock(items: seq<Item>): (r: seq<string>)
    ensures |r| >= 3 * |items|
  {
    if |items| == 0 then []
    else FieldBlock(items[..|items| - 1]) + FieldLines(items[|items| - 1])
  }

  function Indent(lines: seq<string>): (r: seq<string>)
    ensures |r| == |lines|
  {
    seq(|lines|, k requires 0 <= k < |lines| => "  " + lines[k])
  }

  /** Drops the two leading characters of each line (the inverse of `Indent`). */
  function Unindent(lines: seq<string>): (r: seq<string>)
    ensures |r| == |lines|
  {
    seq(|lines|, k requires 0 <= k < |lines| => if |lines[k]| < 2 then lines[k] else lines[k][2..])
  }

  lemma UnindentIndent(lines: seq<string>)
    ensures Unindent(Indent(lines)) == lines
    ensures forall k :: 0 <= k < |lines| ==> Indent(lines)[k][..2] == "  "
  {
    var ind := Indent(lines);
    forall k | 0 <= k < |lines|
      ensures Unindent(ind)[k] == lines[k]
    {
      assert ind[k] == "  " + lines[k];
      assert ind[k][2..] == lines[k];
    }
  }

  const ImportTransformer: string :=
    "import { ClassConstructor, Transform, Type, plainToInstance } from \"class-transformer\";"
  const ImportValidator: string :=
    "import { IsNotEmpty, IsNumber, IsObject, IsBoolean, IsOptional, IsISO8601, IsString, IsEnum, ValidateNested, IsArray, ValidationError, validateOrReject } from \"class-validator\";\n"

  /** `getSchemaContent`: the two library imports, the class header, every
      field line indented by two spaces, and the closing brace. */
  function SchemaContent(schema: Schema): (r: seq<string>)
    ensures |r| == |FieldBlock(schema.items)| + 4
    ensures r[0] == ImportTransformer && r[1] == ImportValidator
    ensures r[2] == "export class " + schema.name + " {"
    ensures r[|r| - 1] == "}"
    ensures forall k :: 0 <= k < |FieldBlock(schema.items)| ==> r[3 + k] == "  " + FieldBlock(schema.items)[k]
    ensures Unindent(r[3..|r| - 1]) == FieldBlock(schema.items)
  {
    var block := FieldBlock(schema.items);
    var body := Indent(block);
    UnindentIndent(block);
    var r := [ImportTransformer, ImportValidator, "export class " + schema.name + " {"] + body + ["}"];
    assert r[3..|r| - 1] == body;
    r
  }

  /** The lines of a block that declare members rather than decorate them. */
  function MemberLines(lines: seq<string>): seq<string>
  {
    if |lines| == 0 then []
    else
      var last := lines[|lines| - 1];
      MemberLines(lines[..|lines| - 1]) + (if |last| > 0 && last[0] == '@' then [] else [last])
  }

  /** The declarations of `items`, in item order. */
  function Declarations(items: seq<Item>): (r: seq<string>)
    ensures |r| == |items|
  {
    if |items| == 0 then [] else Declarations(items[..|items| - 1]) + [Declaration(items[|items| - 1])]
  }

  lemma {:induction false} DeclarationsInOrder(items: seq<Item>)
    ensures forall k :: 0 <= k < |items| ==> Declarations(items)[k] == Declaration(items[k])
    decreases |items|
  {
    if |items| > 0 {
      var init := items[..|items| - 1];
      DeclarationsInOrder(init);
      assert forall k :: 0 <= k < |init| ==> init[k] == items[k];
    }
  }

  lemma {:induction false} MemberLinesAppend(a: seq<string>, b: seq<string>)
    ensures MemberLines(a + b) == MemberLines(a) + MemberLines(b)
    decreases |b|
  {
    if |b| == 0 {
      assert a + b == a;
    } else {
      var last := b[|b| - 1];
      assert (a + b)[..|a + b| - 1] == a + b[..|b| - 1];
      MemberLinesAppend(a, b[..|b| - 1]);
    }
  }

  lemma {:induction false} DecoratorsAreNotMembers(lines: seq<string>)
    requires forall k :: 0 <= k < |lines| ==> |lines[k]| > 0 && lines[k][0] == '@'
    ensures MemberLines(lines) == []
    decreases |lines|
  {
    if |lines| > 0 {
      DecoratorsAreNotMembers(lines[..|lines| - 1]);
    }
  }

  /** A key that would read as a decorator line once rendered. */
  predicate StartsLikeDecorator(key: string)
  {
    |key| > 0 && key[0] == '@'
  }

  /** An item's lines hold exactly one member line, its declaration, and
      it comes after all of the item's decorators. */
  lemma FieldMember(item: Item)
    requires !StartsLikeDecorator(item.key)
    ensures MemberLines(FieldLines(item)) == [Declaration(item)]
    ensures FieldLines(item)[|FieldLines(item)| - 1] == Declaration(item)
  {
    var lines := FieldLines(item);
    var ds := DecoratorsOf(item);
    forall k | 0 <= k < |ds|
      ensures |DecoratorLines(item)[k]| > 0 && DecoratorLines(item)[k][0] == '@'
    {
      RenderedHead(ds[k]);
    }
    DecoratorsAreNotMembers(DecoratorLines(item));
    assert lines[..|lines| - 1] == DecoratorLines(item);
    assert Declaration(item)[0] != '@';
  }

  /** Stripping the decorators from a class body leaves one declaration per
      item, in item order. */
  lemma {:induction false} ClassMembersInOrder(items: seq<Item>)
    requires forall k :: 0 <= k < |items| ==> !StartsLikeDecorator(items[k].key)
    ensures MemberLines(FieldBlock(items)) == Declarations(items)
    decreases |items|
  {
    if |items| > 0 {
      var init, last := items[..|items| - 1], items[|items| - 1];
      LastFieldMembers(items);
      assert forall k :: 0 <= k < |init| ==> init[k] == items[k];
      ClassMembersInOrder(init);
      assert Declarations(items) == Declarations(init) + [Declaration(last)];
    }
  }

  /** The last item of a block adds exactly its declaration to the member lines. */
  lemma LastFieldMembers(items: seq<Item>)
    requires |items| > 0 && !StartsLikeDecorator(items[|items| - 1].key)
    ensures MemberLines(FieldBlock(items))
         == MemberLines(FieldBlock(items[..|items| - 1])) + [Declaration(items[|items| - 1])]
  {
    FieldBlockMembers(items);
    FieldMember(items[|items| - 1]);
  }

  lemma FieldBlockMembers(items: seq<Item>)
    requires |items| > 0
    ensures MemberLines(FieldBlock(items))
         == MemberLines(FieldBlock(items[..|items| - 1])) + MemberLines(FieldLines(items[|items| - 1]))
  {
    var init, last := items[..|items| - 1], items[|items| - 1];
    assert FieldBlock(items) == FieldBlock(init) + FieldLines(last);
    MemberLinesAppend(FieldBlock(init), FieldLines(last));
  }

  /** The class text's member lines, after the two-space indent, are the
      declarations of the schema's items in order. */
  lemma SchemaMembers(schema: Schema)
    requires forall k :: 0 <= k < |schema.items| ==> !StartsLikeDecorator(schema.items[k].key)
    ensures var r := SchemaContent(schema);
      MemberLines(Unindent(r[3..|r| - 1])) == Declarations(schema.items)
  {
    ClassMembersInOrder(schema.items);
  }

  /** A declaration can be read back: the key, then `!` for required and `?`
      for optional items, then `: `, the type name, and a trailing `[]`
      exactly for arrays, provided the type name does not itself end in `]`. */
  lemma DeclarationReadsBack(item: Item)
    requires var t := TypeName(item.itemType); !(|t| > 0 && t[|t| - 1] == ']')
    ensures var d := Declaration(item);
      && |d| > |item.key| + 2
      && d[..|item.key|] == item.key
      && (d[|item.key|] == '!' <==> item.required)
      && (d[|item.key|] == '?' <==> !item.required)
      && d[|item.key| + 1..|item.key| + 3] == ": "
      && (d[|d| - 2..] == "[]" <==> item.isArray)
      && d[|item.key| + 3..|d| - (if item.isArray then 2 else 0)] == TypeName(item.itemType)
  {
    var d := Declaration(item);
    var t := TypeName(item.itemType);
    var head := item.key + (if item.required then "!" else "?") + ": " + t;
    assert d == head + (if item.isArray then "[]" else "");
    assert d[..|item.key|] == item.key;
    assert d[|item.key|] == (if item.required then '!' else '?');
    assert d[|item.key| + 1..|item.key| + 3] == ": ";
    if !item.isArray {
      if |t| > 0 {
        assert d[|d| - 1] == t[|t| - 1];
      } else {
        assert d[|d| - 1] == ' ';
      }
    }
  }
}
