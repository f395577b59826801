/**
 * The `#[mapper(...)]` options after darling has parsed them: one record per
 * attribute level (type, `derive` block, variant, `when` block on a variant, field,
 * `when` block on a field), as plain values.
 */
module Options {
  import opened Wrappers
  import opened Syntax
  import opened TypePathExt

  /** darling's `Override<T>`: the bare word (`Inherit`) or the word with arguments (`Explicit`). */
  datatype Override<T> = Inherit | Explicit(value: T)

  /** The arguments of `from` / `into` / `try_from` / `try_into`: `custom` or `custom = name`. */
  datatype DeriveInput = DeriveInput(custom: Option<Spanned<Override<Ident>>>)

  /** One direction as written: absent, or present with its location and arguments. */
  type DirectionOpt = Option<Spanned<Override<DeriveInput>>>

  /** `default(value = expr)`. */
  datatype DefaultInput = DefaultInput(value: Expr)

  /** `add(field = name, ty = T, default ...)`: a field or variant only the other type has. */
  datatype AddInput = AddInput(
    field: Spanned<Ident>,
    ty: Option<Spanned<TypePathWrapper>>,
    default: Option<Spanned<Override<DefaultInput>>>)

  /** `skip` / `skip(default ...)`. */
  datatype SkipInput = SkipInput(default: Option<Spanned<Override<DefaultInput>>>)

  /** The mapping hints of a field: a conversion function or the kind of wrapper the field is. */
  datatype MapperHint = MapperHint(
    withExpr: Option<Spanned<Expr>>,
    intoWith: Option<Spanned<Expr>>,
    fromWith: Option<Spanned<Expr>>,
    opt: Option<Spanned<Override<MapperHint>>>,
    iter: Option<Spanned<Override<MapperHint>>>,
    mapHint: Option<Spanned<Override<MapperHint>>>)

  /** One conversion request (a `derive(...)` block, or the top-level options on their own). */
  datatype ItemInput = ItemInput(
    path: Spanned<TypePathWrapper>,
    from: DirectionOpt,
    into: DirectionOpt,
    tryFrom: DirectionOpt,
    tryInto: DirectionOpt,
    add: seq<AddInput>,
    ignoreExtra: Spanned<bool>)

  /** A field of the annotated struct, or of one of the annotated enum's variants. */
  datatype FieldReceiver = FieldReceiver(
    ident: Option<Ident>,
    identSpan: Span,
    ty: Type,
    tySpan: Span,
    items: seq<ItemFieldInput>,
    path: Option<Spanned<TypePathWrapper>>,
    rename: Option<Spanned<Ident>>,
    skip: Option<Spanned<Override<SkipInput>>>,
    otherTy: Option<Spanned<Ident>>,
    hint: MapperHint)

  /** A `when(ty = ..., ...)` block on a field: options scoped to one other type. */
  datatype ItemFieldInput = ItemFieldInput(
    path: Spanned<TypePathWrapper>,
    rename: Option<Spanned<Ident>>,
    skip: Option<Spanned<Override<SkipInput>>>,
    otherTy: Option<Spanned<Ident>>,
    hint: MapperHint)

  /** A variant of the annotated enum. */
  datatype VariantReceiver = VariantReceiver(
    ident: Ident,
    fields: seq<FieldReceiver>,
    items: seq<ItemVariantInput>,
    path: Option<Spanned<TypePathWrapper>>,
    rename: Option<Spanned<Ident>>,
    add: seq<AddInput>,
    skip: Option<Spanned<Override<SkipInput>>>,
    ignoreExtra: Spanned<bool>)

  /** A `when(ty = ..., ...)` block on a variant. */
  datatype ItemVariantInput = ItemVariantInput(
    path: Spanned<TypePathWrapper>,
    rename: Option<Spanned<Ident>>,
    add: seq<AddInput>,
    skip: Option<Spanned<Override<SkipInput>>>,
    ignoreExtra: Spanned<bool>)

  datatype Data = StructData(fields: seq<FieldReceiver>) | EnumData(variants: seq<VariantReceiver>)

  /** The type-level options together with the annotated type's name and body. */
  datatype MapperOpts = MapperOpts(
    ident: Ident,
    data: Data,
    items: seq<ItemInput>,
    path: Option<Spanned<TypePathWrapper>>,
    from: DirectionOpt,
    into: DirectionOpt,
    tryFrom: DirectionOpt,
    tryInto: DirectionOpt,
    add: seq<AddInput>,
    ignoreExtra: Spanned<bool>)

  /**
   * A present direction without a `custom` name: the bare word, or explicit arguments
   * that leave `custom` unset.
   */
  predicate LacksCustom(d: DirectionOpt)
  {
    d.Some? && (d.value.value.Inherit? || d.value.value.value.custom.None?)
  }

  /** A `skip` without a default value: the bare word, or explicit arguments that leave `default` unset. */
  predicate SkipLacksDefault(skip: Override<SkipInput>)
  {
    skip.Inherit? || skip.value.default.None?
  }

  /** The location-free value of an optional spanned option (`as_deref`). */
  function Unspan<T>(o: Option<Spanned<T>>): (r: Option<T>)
    ensures r.Some? <==> o.Some?
    ensures r.Some? ==> r.value == o.value.value
  {
    match o
    case None => None
    case Some(s) => Some(s.value)
  }
}
