/** The field classifier of index.ts (`getDecorators`): the ordered list of
    class-validator / class-transformer decorators attached above a member.
    Decorators are built as values of `Decorator` and rendered to the exact
    text the source emits by `Render`. */
module Decorators {
  import opened SchemaModel
  import opened Text

  /** The registered coercion functions that are emitted; their text is opaque. */
  datatype TransformFn = Decimal | ArrayDecimal | Bool | ArrayBool {
    predicate IsArrayAware() {
      ArrayDecimal? || ArrayBool?
    }

    predicate IsDecimal() {
      Decimal? || ArrayDecimal?
    }
  }

  datatype Decorator =
    | IsNotEmpty(key: string)
    | IsOptional
    | Transform(fn: TransformFn)
    | IsNumber(key: string, each: bool)
    | IsBoolean(key: string, each: bool)
    | IsString(key: string, each: bool)
    | IsEnum(enumName: string, key: string, each: bool)
    | IsArray
    | IsObject
    | ValidateNested(each: bool)
    | TypeOf(target: string)
  {
    /** The requiredness gate: `@IsNotEmpty` or `@IsOptional`. */
    predicate IsPresence() {
      IsNotEmpty? || IsOptional?
    }

    /** Validators that take the `each: true` option for arrays. */
    predicate HasEachOption() {
      IsNumber? || IsBoolean? || IsString? || IsEnum? || ValidateNested?
    }
  }

  const TransformDecimal: string :=
    "(param?: any): number | null => (param?.value === null || param?.value === undefined || param?.value === '') ? null : parseFloat(param.value)"
  const TransformArrayDecimal: string :=
    "(param?: any): (number | null)[] | null => !Array.isArray(param?.value) ? null : param?.value.map((value: any) => (value === null || value === undefined || value === '') ? null : parseFloat(value))"
  const TransformBoolean: string :=
    "(param?: any): boolean | null => (param?.value === null || param?.value === undefined || param?.value === '') ? null : (param?.value === 'true' || ((typeof param?.value === 'boolean') && param?.value))"
  const TransformArrayBoolean: string :=
    "(param?: any): (boolean | null)[] | null => !Array.isArray(param?.value) ? null : param?.value.map((value: any) => (value === null || value === undefined || value === '') ? null : (value === 'true' || ((typeof value === 'boolean') && value)))"

  /** The text of a registered coercion function. */
  function TransformText(fn: TransformFn): string
  {
    match fn
    case Decimal => TransformDecimal
    case ArrayDecimal => TransformArrayDecimal
    case Bool => TransformBoolean
    case ArrayBool => TransformArrayBoolean
  }

  /** The `, each: true` suffix of a validator's options for array items. */
  function EachProperty(each: bool): string
  {
    if each then ", each: true" else ""
  }

  /** The decorator's name, between `@` and `(`. */
  function Name(d: Decorator): (r: string)
    ensures '(' !in r
  {
    match d
    case IsNotEmpty(_) => "IsNotEmpty"
    case IsOptional => "IsOptional"
    case Transform(_) => "Transform"
    case IsNumber(_, _) => "IsNumber"
    case IsBoolean(_, _) => "IsBoolean"
    case IsString(_, _) => "IsString"
    case IsEnum(_, _, _) => "IsEnum"
    case IsArray => "IsArray"
    case IsObject => "IsObject"
    case ValidateNested(_) => "ValidateNested"
    case TypeOf(_) => "Type"
  }

  /** The text between the decorator's parentheses. */
  function Arguments(d: Decorator): string
  {
    match d
    case IsNotEmpty(k) => "{ message: '" + k + " cannot be empty' }"
    case IsOptional => ""
    case Transform(fn) => TransformText(fn)
    case IsNumber(k, e) => "{}, { message: '" + k + " must be a number (decimal)'" + EachProperty(e) + " }"
    case IsBoolean(k, e) => "{ message: '" + k + " must be a boolean'" + EachProperty(e) + " }"
    case IsString(k, e) => "{ message: '" + k + " must be a string'" + EachProperty(e) + " }"
    case IsEnum(n, k, e) => n + ", { message: '" + k + " must be enum " + n + "'" + EachProperty(e) + " }"
    case IsArray => ""
    case IsObject => ""
    case ValidateNested(e) => if e then "{ each: true }" else ""
    case TypeOf(n) => "() => " + n
  }

  /** The decorator as a line of TypeScript. */
  function Render(d: Decorator): string
  {
    "@" + Name(d) + "(" + Arguments(d) + ")"
  }

  /** The validators for a `schema` or `table` item, before its `@Type`. */
  function Nested(isArray: bool): seq<Decorator>
  {
    if isArray then [IsArray, ValidateNested(true)] else [IsObject, ValidateNested(false)]
  }

  /** The decorators `getDecorators` adds for the item's type tag and
      cardinality, after the requiredness gate. */
  function TypeDecorators(item: Item): (t: seq<Decorator>)
    ensures |t| >= 1
    ensures forall k :: 0 <= k < |t| ==> !t[k].IsPresence()
    // a coercion is attached exactly to native numbers and booleans, first, in its array-aware form iff the item is an array
    ensures (exists k :: 0 <= k < |t| && t[k].Transform?) <==> item.itemType.IsCoerced()
    ensures forall k :: 0 <= k < |t| && t[k].Transform? ==>
        k == 0 && (t[k].fn.IsArrayAware() <==> item.isArray)
        && (t[k].fn.IsDecimal() <==> item.itemType == Native(Number))
    ensures forall k :: 0 <= k < |t| && t[k].HasEachOption() ==> t[k].each == item.isArray
    ensures item.itemType.IsCoerced() ==> |t| == 2
    ensures item.itemType == Native(Number) ==> t[|t| - 1] == IsNumber(item.key, item.isArray)
    ensures item.itemType == Native(Boolean) ==> t[|t| - 1] == IsBoolean(item.key, item.isArray)
    ensures item.itemType == Native(String) ==> t == [IsString(item.key, item.isArray)]
    ensures item.itemType.Enum? ==> t == [IsEnum(item.itemType.enumName, item.key, item.isArray)]
    ensures item.itemType.IsReference() ==>
        |t| == 3 && t[2] == TypeOf(item.itemType.RefName())
        && t[0] == (if item.isArray then IsArray else IsObject)
        && t[1].ValidateNested?
    ensures (exists k :: 0 <= k < |t| && t[k].TypeOf?) <==> item.itemType.IsReference()
  {
    var t :=
      match item.itemType
      case Native(Number) =>
        [Transform(if item.isArray then ArrayDecimal else Decimal), IsNumber(item.key, item.isArray)]
      case Native(Boolean) =>
        [Transform(if item.isArray then ArrayBool else Bool), IsBoolean(item.key, item.isArray)]
      case Native(String) => [IsString(item.key, item.isArray)]
      case Enum(n) => [IsEnum(n, item.key, item.isArray)]
      case SchemaRef(n) => Nested(item.isArray) + [TypeOf(n)]
      case TableRef(n) => Nested(item.isArray) + [TypeOf(n)];
    assert item.itemType.IsCoerced() ==> t[0].Transform?;
    assert item.itemType.IsReference() ==> t[2].TypeOf?;
    t
  }

  /** `getDecorators`: the requiredness gate first, then the decorators of
      the item's type tag and cardinality. */
  function DecoratorsOf(item: Item): (r: seq<Decorator>)
    // exactly one requiredness decorator, and it comes first
    ensures |r| >= 2 && r[0].IsPresence()
    ensures r[0].IsNotEmpty? <==> item.required
    ensures r[0].IsNotEmpty? ==> r[0].key == item.key
    ensures forall k :: 1 <= k < |r| ==> !r[k].IsPresence()
    // a coercion is attached exactly to native numbers and booleans, in its array-aware form iff the item is an array
    ensures (exists k :: 0 <= k < |r| && r[k].Transform?)
        <==> item.itemType.IsCoerced()
    ensures forall k :: 0 <= k < |r| && r[k].Transform? ==>
        k == 1 && (r[k].fn.IsArrayAware() <==> item.isArray)
        && (r[k].fn.IsDecimal() <==> item.itemType == Native(Number))
    // every per-element option follows the item's cardinality
    ensures forall k :: 0 <= k < |r| && r[k].HasEachOption() ==> r[k].each == item.isArray
    // the last decorator is the type check of the item's kind
    ensures item.itemType.IsCoerced() ==> |r| == 3
    ensures item.itemType == Native(Number) ==> r[|r| - 1] == IsNumber(item.key, item.isArray)
    ensures item.itemType == Native(Boolean) ==> r[|r| - 1] == IsBoolean(item.key, item.isArray)
    ensures item.itemType == Native(String) ==> |r| == 2 && r[1] == IsString(item.key, item.isArray)
    ensures item.itemType.Enum? ==> |r| == 2 && r[1] == IsEnum(item.itemType.enumName, item.key, item.isArray)
    ensures item.itemType.IsReference() ==>
        |r| == 4 && r[|r| - 1] == TypeOf(item.itemType.RefName())
        && r[1] == (if item.isArray then IsArray else IsObject)
        && r[2].ValidateNested?
    ensures (exists k :: 0 <= k < |r| && r[k].TypeOf?) <==> item.itemType.IsReference()
  {
    var presence := if item.required then IsNotEmpty(item.key) else IsOptional;
    var t := TypeDecorators(item);
    var r := [presence] + t;
    assert forall k :: 1 <= k < |r| ==> r[k] == t[k - 1];
    assert item.itemType.IsCoerced() ==> r[1] == t[0];
    assert item.itemType.IsReference() ==> r[3] == t[2];
    r
  }

  /** The decorator lines of an item, as emitted. */
  function DecoratorLines(item: Item): (r: seq<string>)
    ensures |r| == |DecoratorsOf(item)|
    ensures forall k :: 0 <= k < |r| ==> r[k] == Render(DecoratorsOf(item)[k])
  {
    var ds := DecoratorsOf(item);
    seq(|ds|, k requires 0 <= k < |ds| => Render(ds[k]))
  }

  lemma RenderTypeOf(n: string)
    ensures Render(TypeOf(n)) == "@Type(() => " + n + ")"
  {
  }

  lemma RenderContainer(isArray: bool)
    ensures Render(if isArray then IsArray else IsObject)
         == (if isArray then "@IsArray()" else "@IsObject()")
  {
  }

  lemma RenderValidateNestedEach()
    ensures Render(ValidateNested(true)) == "@ValidateNested({ each: true })"
  {
  }

  lemma RenderValidateNestedOne()
    ensures Render(ValidateNested(false)) == "@ValidateNested()"
  {
  }

  lemma RenderIsOptional()
    ensures Render(IsOptional) == "@IsOptional()"
  {
  }

  lemma RenderTransform(fn: TransformFn)
    ensures Render(Transform(fn)) == "@Transform(" + TransformText(fn) + ")"
  {
    assert Name(Transform(fn)) == "Transform";
    assert Arguments(Transform(fn)) == TransformText(fn);
  }

  /** Each rendered line names its decorator before the first parenthesis,
      so distinct kinds never render to the same text. */
  lemma RenderedHead(d: Decorator)
    ensures HeadOf(Render(d)) == "@" + Name(d)
    ensures Render(d)[0] == '@'
  {
    assert Render(d) == ("@" + Name(d)) + "(" + (Arguments(d) + ")");
    HeadOfCall("@" + Name(d), Arguments(d) + ")");
  }

  /** The name of a decorator identifies its kind. */
  lemma NameIdentifiesKind(d: Decorator)
    ensures Name(d) == "IsNotEmpty" <==> d.IsNotEmpty?
    ensures Name(d) == "IsOptional" <==> d.IsOptional?
    ensures Name(d) == "Transform" <==> d.Transform?
    ensures Name(d) == "Type" <==> d.TypeOf?
  {
  }

  /** The not-empty message names the key it guards. */
  lemma NotEmptyMentionsKey(key: string)
    ensures HeadOf(Render(IsNotEmpty(key))) == "@IsNotEmpty"
    ensures Contains(Render(IsNotEmpty(key)), key)
  {
    var d := IsNotEmpty(key);
    RenderedHead(d);
    var prefix, args := "@" + Name(d) + "(", Arguments(d);
    assert args == "{ message: '" + key + " cannot be empty' }";
    assert args[12..12 + |key|] == key;
    assert Render(d) == prefix + args + ")";
    assert Render(d)[|prefix| + 12..|prefix| + 12 + |key|] == key;
  }

  /** Only the requiredness decorators render with those two heads. */
  lemma OtherHeads(d: Decorator)
    requires !d.IsPresence()
    ensures HeadOf(Render(d)) != "@IsNotEmpty" && HeadOf(Render(d)) != "@IsOptional"
  {
    RenderedHead(d);
    NameIdentifiesKind(d);
    var h := "@" + Name(d);
    assert h[1..] == Name(d);
  }

  /** The requiredness gate in text: the first line is `@IsNotEmpty(...)`
      mentioning the key when the item is required and `@IsOptional()`
      otherwise, and no later line is either. */
  lemma PresenceLineFirst(item: Item)
    ensures var lines := DecoratorLines(item);
      && (item.required ==> HeadOf(lines[0]) == "@IsNotEmpty" && Contains(lines[0], item.key))
      && (!item.required ==> lines[0] == "@IsOptional()")
      && forall k :: 1 <= k < |lines| ==>
           HeadOf(lines[k]) != "@IsNotEmpty" && HeadOf(lines[k]) != "@IsOptional"
  {
    var ds := DecoratorsOf(item);
    var lines := DecoratorLines(item);
    if item.required {
      NotEmptyMentionsKey(item.key);
    } else {
      RenderIsOptional();
    }
    forall k | 1 <= k < |lines|
      ensures HeadOf(lines[k]) != "@IsNotEmpty" && HeadOf(lines[k]) != "@IsOptional"
    {
      OtherHeads(ds[k]);
    }
  }

  /** A `schema` or `table` item's lines end with `@Type(() => <name>)`, so
      class-transformer instantiates the referenced class. */
  lemma ReferenceLinesEndWithType(item: Item)
    requires item.itemType.IsReference()
    ensures var lines := DecoratorLines(item);
      lines[|lines| - 1] == "@Type(() => " + item.itemType.RefName() + ")"
      && lines[1] == (if item.isArray then "@IsArray()" else "@IsObject()")
      && lines[2] == (if item.isArray then "@ValidateNested({ each: true })" else "@ValidateNested()")
  {
    var ds := DecoratorsOf(item);
    assert ds[1] == (if item.isArray then IsArray else IsObject);
    assert ds[2] == ValidateNested(item.isArray);
    RenderTypeOf(item.itemType.RefName());
    RenderContainer(item.isArray);
    if item.isArray {
      RenderValidateNestedEach();
    } else {
      RenderValidateNestedOne();
    }
  }

  /** A native number or boolean item carries the array-aware coercion text
      exactly when it is an array. */
  lemma TransformLine(item: Item)
    requires item.itemType.IsCoerced()
    ensures var lines := DecoratorLines(item);
      lines[1] == "@Transform(" + TransformText(DecoratorsOf(item)[1].fn) + ")"
      && (item.itemType == Native(Number) ==>
            TransformText(DecoratorsOf(item)[1].fn) == (if item.isArray then TransformArrayDecimal else TransformDecimal))
      && (item.itemType == Native(Boolean) ==>
            TransformText(DecoratorsOf(item)[1].fn) == (if item.isArray then TransformArrayBoolean else TransformBoolean))
  {
    RenderTransform(DecoratorsOf(item)[1].fn);
  }
}
