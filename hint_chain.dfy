/**
 * `build_into_for` / `build_into_for_inner`: the expression that converts one field's
 * value, chosen from the field's mapping hint for one derived type. The expression is a
 * plan (`Conv`), not token text.
 */
module HintChain {
  import opened Wrappers
  import opened Syntax
  import opened Options
  import opened Scoped

  /** The shape of a generated conversion expression over the bound variable `arg`. */
  datatype Conv =
    | MapValue(qself: Option<QSelf>, path: Path, arg: Ident)   // `(&(path)).map_value(arg)` via the runtime crate
    | OkWrap(expr: Expr)                                         // `Ok::<_, anyhow::Error>(expr)`
    | Verbatim(expr: Expr)                                       // `expr`, used as is
    | OptionMap(arg: Ident, inner: Conv, transpose: bool)        // `arg.map(|arg| inner)`, then `.transpose()`
    | IterCollect(arg: Ident, inner: Conv, collectResult: bool)  // `arg.into_iter().map(|arg| inner).collect()`
    | MapCollect(arg: Ident, inner: Conv, collectResult: bool)   // the same over `(k, arg)` pairs, `k` kept
    | IntoCall(arg: Ident)                                       // `Into::into(arg)`
    | TryIntoCall(arg: Ident)                                    // `TryInto::try_into(arg)`
    | Propagate(inner: Conv)                                     // `inner?`

  /** The conversion used when no hint applies. */
  function DefaultConv(isTry: bool, ident: Ident): (c: Conv)
    ensures c.IntoCall? || c.TryIntoCall?
    ensures c.TryIntoCall? <==> isTry
  {
    if isTry then TryIntoCall(ident) else IntoCall(ident)
  }

  /**
   * The `check_with` closure: a path is called through the runtime `map_value` helper;
   * any other expression is used as the value, wrapped in `Ok` in a fallible conversion.
   */
  function CheckWith(with: Option<Spanned<Expr>>, isTry: bool, ident: Ident): (r: Option<Conv>)
    ensures r.Some? <==> with.Some?
    ensures with.Some? && with.value.value.PathExpr? ==>
      r.value == MapValue(with.value.value.qself, with.value.value.path, ident)
    ensures with.Some? && !with.value.value.PathExpr? ==>
      r.value == (if isTry then OkWrap(with.value.value) else Verbatim(with.value.value))
  {
    match with
    case None => None
    case Some(w) =>
      match w.value
      case PathExpr(qself, path) => Some(MapValue(qself, path, ident))
      case _ => if isTry then Some(OkWrap(w.value)) else Some(Verbatim(w.value))
  }

  /** The conversion function for this direction: `from_with` when mapping from the other type. */
  function DirectionalWith(h: MapperHint, from: bool): Option<Spanned<Expr>>
  {
    if from then h.fromWith else h.intoWith
  }

  /** The conversion chosen from hint `h`; an `opt`/`iter`/`map` hint recurses on its inner hint. */
  function BuildFromHint(from: bool, isTry: bool, ident: Ident, h: MapperHint): Conv
    decreases h
  {
    var direct := CheckWith(DirectionalWith(h, from), isTry, ident);
    var with := CheckWith(h.withExpr, isTry, ident);
    if direct.Some? then direct.value
    else if with.Some? then with.value
    else if h.opt.Some? then
      var inner := match h.opt.value.value
        case Inherit => DefaultConv(isTry, ident)
        case Explicit(ih) => BuildFromHint(from, isTry, ident, ih);
      OptionMap(ident, inner, isTry)
    else if h.iter.Some? then
      var inner := match h.iter.value.value
        case Inherit => DefaultConv(isTry, ident)
        case Explicit(ih) => BuildFromHint(from, isTry, ident, ih);
      IterCollect(ident, inner, isTry)
    else if h.mapHint.Some? then
      var inner := match h.mapHint.value.value
        case Inherit => DefaultConv(isTry, ident)
        case Explicit(ih) => BuildFromHint(from, isTry, ident, ih);
      MapCollect(ident, inner, isTry)
    else DefaultConv(isTry, ident)
  }

  function BuildIntoForInner(from: bool, isTry: bool, ident: Ident, hint: Option<MapperHint>): Conv
  {
    match hint
    case None => DefaultConv(isTry, ident)
    case Some(h) => BuildFromHint(from, isTry, ident, h)
  }

  /** The value expression of field `f` for the derive targeting `target`: `?` is appended iff fallible. */
  function BuildIntoFor(f: FieldReceiver, from: bool, isTry: bool, ident: Ident, target: TypePath): (c: Conv)
    ensures c.Propagate? <==> isTry
    ensures Moded(if isTry then c.inner else c, isTry)
  {
    var into := BuildIntoForInner(from, isTry, ident, HintFor(f, target));
    BuildIntoForInnerModed(from, isTry, ident, HintFor(f, target));
    if isTry then Propagate(into) else into
  }

  /**
   * Every node the macro chooses agrees with the conversion's fallibility: in a `try`
   * conversion each step yields a `Result` (wrapped in `Ok`, transposed or collected into a
   * `Result`), in an infallible one none does, and `?` never appears inside. A `map_value`
   * call takes whatever the user's function returns.
   */
  predicate Moded(c: Conv, isTry: bool)
  {
    match c
    case MapValue(_, _, _) => true
    case OkWrap(_) => isTry
    case Verbatim(_) => !isTry
    case OptionMap(_, inner, transpose) => transpose == isTry && Moded(inner, isTry)
    case IterCollect(_, inner, collectResult) => collectResult == isTry && Moded(inner, isTry)
    case MapCollect(_, inner, collectResult) => collectResult == isTry && Moded(inner, isTry)
    case IntoCall(_) => !isTry
    case TryIntoCall(_) => isTry
    case Propagate(_) => false
  }

  lemma {:induction false} BuildFromHintModed(from: bool, isTry: bool, ident: Ident, h: MapperHint)
    ensures Moded(BuildFromHint(from, isTry, ident, h), isTry)
    decreases h
  {
    var direct := CheckWith(DirectionalWith(h, from), isTry, ident);
    var with := CheckWith(h.withExpr, isTry, ident);
    if direct.Some? || with.Some? {
    } else if h.opt.Some? {
      if h.opt.value.value.Explicit? {
        BuildFromHintModed(from, isTry, ident, h.opt.value.value.value);
      }
    } else if h.iter.Some? {
      if h.iter.value.value.Explicit? {
        BuildFromHintModed(from, isTry, ident, h.iter.value.value.value);
      }
    } else if h.mapHint.Some? {
      if h.mapHint.value.value.Explicit? {
        BuildFromHintModed(from, isTry, ident, h.mapHint.value.value.value);
      }
    }
  }

  lemma BuildIntoForInnerModed(from: bool, isTry: bool, ident: Ident, hint: Option<MapperHint>)
    ensures Moded(BuildIntoForInner(from, isTry, ident, hint), isTry)
  {
    if hint.Some? {
      BuildFromHintModed(from, isTry, ident, hint.value);
    }
  }

  /** A hint, and every hint nested in it, without `from_with` and `into_with`. */
  predicate NoDirectionalWith(h: MapperHint)
    decreases h
  {
    h.fromWith.None? && h.intoWith.None?
    && (h.opt.Some? && h.opt.value.value.Explicit? ==> NoDirectionalWith(h.opt.value.value.value))
    && (h.iter.Some? && h.iter.value.value.Explicit? ==> NoDirectionalWith(h.iter.value.value.value))
    && (h.mapHint.Some? && h.mapHint.value.value.Explicit? ==> NoDirectionalWith(h.mapHint.value.value.value))
  }

  /** Without `from_with`/`into_with` anywhere, both directions build the same expression. */
  lemma {:induction false} DirectionsAgree(isTry: bool, ident: Ident, h: MapperHint)
    requires NoDirectionalWith(h)
    ensures BuildFromHint(true, isTry, ident, h) == BuildFromHint(false, isTry, ident, h)
    decreases h
  {
    if h.opt.Some? && h.opt.value.value.Explicit? {
      DirectionsAgree(isTry, ident, h.opt.value.value.value);
    }
    if h.iter.Some? && h.iter.value.value.Explicit? {
      DirectionsAgree(isTry, ident, h.iter.value.value.value);
    }
    if h.mapHint.Some? && h.mapHint.value.value.Explicit? {
      DirectionsAgree(isTry, ident, h.mapHint.value.value.value);
    }
  }

  /** The mode-free skeleton of a conversion: which hint produced each step. */
  datatype Skeleton =
    | SWith(expr: Expr)
    | SOpt(inner: Skeleton)
    | SIter(inner: Skeleton)
    | SMap(inner: Skeleton)
    | SDefault
    | SPropagate(inner: Skeleton)

  function Erase(c: Conv): Skeleton
  {
    match c
    case MapValue(qself, path, _) => SWith(PathExpr(qself, path))
    case OkWrap(e) => SWith(e)
    case Verbatim(e) => SWith(e)
    case OptionMap(_, inner, _) => SOpt(Erase(inner))
    case IterCollect(_, inner, _) => SIter(Erase(inner))
    case MapCollect(_, inner, _) => SMap(Erase(inner))
    case IntoCall(_) => SDefault
    case TryIntoCall(_) => SDefault
    case Propagate(inner) => SPropagate(Erase(inner))
  }

  /** The fallible and infallible conversions follow the same hints and differ only in mode. */
  lemma {:induction false} ModesShareSkeleton(from: bool, ident: Ident, h: MapperHint)
    ensures Erase(BuildFromHint(from, true, ident, h)) == Erase(BuildFromHint(from, false, ident, h))
    decreases h
  {
    if DirectionalWith(h, from).Some? || h.withExpr.Some? {
    } else if h.opt.Some? {
      if h.opt.value.value.Explicit? {
        ModesShareSkeleton(from, ident, h.opt.value.value.value);
      }
    } else if h.iter.Some? {
      if h.iter.value.value.Explicit? {
        ModesShareSkeleton(from, ident, h.iter.value.value.value);
      }
    } else if h.mapHint.Some? {
      if h.mapHint.value.value.Explicit? {
        ModesShareSkeleton(from, ident, h.mapHint.value.value.value);
      }
    }
  }

  /** The inner hint of an `opt`/`iter`/`map` hint: its explicit hint, or none for the bare word. */
  function InnerHint(o: Override<MapperHint>): Option<MapperHint>
  {
    match o
    case Inherit => None
    case Explicit(ih) => Some(ih)
  }

  /**
   * The order in which hints are tried: the directional function first, then `with`, then
   * `opt`, `iter` and `map`, each wrapping the conversion built from its explicit inner hint,
   * or the default conversion for the bare word; a hint with none of them converts with
   * `Into`/`TryInto`.
   */
  lemma HintPrecedence(from: bool, isTry: bool, ident: Ident, h: MapperHint)
    ensures DirectionalWith(h, from).Some? ==>
      Erase(BuildFromHint(from, isTry, ident, h)) == SWith(DirectionalWith(h, from).value.value)
    ensures DirectionalWith(h, from).None? && h.withExpr.Some? ==>
      Erase(BuildFromHint(from, isTry, ident, h)) == SWith(h.withExpr.value.value)
    ensures DirectionalWith(h, from).None? && h.withExpr.None? && h.opt.Some? ==>
      Erase(BuildFromHint(from, isTry, ident, h))
        == SOpt(Erase(BuildIntoForInner(from, isTry, ident, InnerHint(h.opt.value.value))))
    ensures DirectionalWith(h, from).None? && h.withExpr.None? && h.opt.None? && h.iter.Some? ==>
      Erase(BuildFromHint(from, isTry, ident, h))
        == SIter(Erase(BuildIntoForInner(from, isTry, ident, InnerHint(h.iter.value.value))))
    ensures DirectionalWith(h, from).None? && h.withExpr.None? && h.opt.None? && h.iter.None? && h.mapHint.Some? ==>
      Erase(BuildFromHint(from, isTry, ident, h))
        == SMap(Erase(BuildIntoForInner(from, isTry, ident, InnerHint(h.mapHint.value.value))))
    ensures DirectionalWith(h, from).None? && h.withExpr.None? && h.opt.None? && h.iter.None? && h.mapHint.None? ==>
      Erase(BuildFromHint(from, isTry, ident, h)) == SDefault
  {
  }
}
