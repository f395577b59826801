/**
 * The fragment of the Rust syntax tree that the mapper inspects, as plain values.
 * Spans are opaque tags; identifiers compare by name only, as `syn::Ident` does.
 */
module Syntax {
  import opened Wrappers

  /** A source location, used only to place a diagnostic. */
  datatype Span = CallSite | At(id: nat)

  /** A value together with the location it was written at. */
  datatype Spanned<T> = Spanned(span: Span, value: T)

  datatype Ident = Ident(name: string)

  /**
   * Types. `PathType` is the case the mapper cares about; references, slices and tuples
   * nest further types. Every other type (function pointers, trait objects, `impl Trait`,
   * arrays, raw pointers, parenthesized and macro types) is an opaque `LeafType`, even
   * where it nests types of its own.
   */
  datatype Type =
    | PathType(path: TypePath)
    | RefType(elem: Type)
    | SliceType(elem: Type)
    | TupleType(elems: seq<Type>)
    | LeafType(id: nat)

  /** `<T as Trait>::...`: the qualified self type of a path. */
  datatype QSelf = QSelf(ty: Type, position: nat)

  datatype Path = Path(leadingColon: bool, segments: seq<Segment>)

  datatype TypePath = TypePath(qself: Option<QSelf>, path: Path)

  datatype Segment = Segment(ident: Ident, args: seq<GenericArg>)

  /**
   * A generic argument: a type argument, or any other argument (a lifetime, a const, an
   * associated-type binding `Item = T`, a parenthesized `Fn(A) -> B` list), kept opaque.
   */
  datatype GenericArg = TypeArg(ty: Type) | OtherArg(id: nat)

  datatype Lit = StrLit(text: string) | OtherLit(id: nat)

  /** Expressions: paths and literals are told apart, anything else is opaque. */
  datatype Expr =
    | PathExpr(qself: Option<QSelf>, path: Path)
    | LitExpr(lit: Lit)
    | OtherExpr(id: nat)
}
