/**
 * Type paths as the macro reads them from `ty = ...` options: the wrapper that
 * darling parses them into, its equality, a collector of bare single-segment type
 * identifiers, and a fold that substitutes such identifiers through a map.
 */
module TypePathExt {
  import opened Wrappers
  import opened Syntax

  /** A parsed `ty = ...` option: a type path and nothing else. */
  datatype TypePathWrapper = TypePathWrapper(inner: TypePath)

  /** The errors darling's `FromMeta` reports. */
  datatype MetaError =
    | UnexpectedLitType(lit: Lit)
    | UnexpectedExprType(expr: Expr)
    | Custom(message: string)

  /**
   * `from_value`: only a string literal is accepted, and its text is parsed as a
   * type path by `parse` (the `syn` parser, which is not part of this model).
   */
  function FromValue(value: Lit, parse: string -> Result<TypePath, string>): (r: Result<TypePathWrapper, MetaError>)
    ensures !value.StrLit? ==> r == Err(UnexpectedLitType(value))
    ensures value.StrLit? ==> (r.Ok? <==> parse(value.text).Ok?)
    ensures value.StrLit? && r.Ok? ==> r.value.inner == parse(value.text).value
    ensures value.StrLit? && r.Err? ==> r.error == Custom(parse(value.text).error)
  {
    match value
    case StrLit(text) =>
      (match parse(text)
       case Ok(tp) => Ok(TypePathWrapper(tp))
       case Err(e) => Err(Custom(e)))
    case OtherLit(_) => Err(UnexpectedLitType(value))
  }

  /**
   * `from_expr`: a path expression becomes the type path with the same qualified
   * self and path, a literal goes through `FromValue`, anything else is refused.
   */
  function FromExpr(expr: Expr, parse: string -> Result<TypePath, string>): (r: Result<TypePathWrapper, MetaError>)
    ensures expr.PathExpr? ==> r.Ok? && r.value.inner.qself == expr.qself && r.value.inner.path == expr.path
    ensures expr.LitExpr? ==> r == FromValue(expr.lit, parse)
    ensures expr.OtherExpr? ==> r == Err(UnexpectedExprType(expr))
  {
    match expr
    case PathExpr(qself, path) => Ok(TypePathWrapper(TypePath(qself, path)))
    case LitExpr(lit) => FromValue(lit, parse)
    case OtherExpr(_) => Err(UnexpectedExprType(expr))
  }

  /** Writing a wrapper back out as a path expression and reading it again gives it back. */
  lemma FromExprRoundTrip(w: TypePathWrapper, parse: string -> Result<TypePath, string>)
    ensures FromExpr(PathExpr(w.inner.qself, w.inner.path), parse) == Ok(w)
  {
  }

  /** `as_ref` and `deref`: the wrapped path, which wraps back into the same wrapper. */
  function AsRef(w: TypePathWrapper): (p: TypePath)
    ensures TypePathWrapper(p) == w
  {
    w.inner
  }

  /** `PartialEq for TypePathWrapper`: two wrappers are equal iff they are the same value. */
  function Eq(a: TypePathWrapper, b: TypePathWrapper): (r: bool)
    ensures r <==> a == b
  {
    a.inner == b.inner
  }

  /** `PartialEq<TypePath> for TypePathWrapper`. */
  function EqPath(a: TypePathWrapper, p: TypePath): (r: bool)
    ensures r <==> a == TypePathWrapper(p)
  {
    a.inner == p
  }

  /** `PartialEq<TypePathWrapper> for TypePath`. */
  function PathEq(p: TypePath, a: TypePathWrapper): (r: bool)
    ensures r <==> TypePathWrapper(p) == a
  {
    p == a.inner
  }

  /** The three comparisons agree with each other whichever way round they are asked. */
  lemma EqualityAgrees(a: TypePathWrapper, b: TypePathWrapper, p: TypePath)
    ensures Eq(a, b) == EqPath(a, b.inner) == PathEq(a.inner, b)
    ensures EqPath(a, p) == PathEq(p, a)
    ensures Eq(a, b) == Eq(b, a)
  {
  }

  /**
   * A path that names a type by one bare identifier: no qualified self, no leading
   * `::`, one segment, no generic arguments.
   */
  predicate IsBareIdent(p: TypePath)
  {
    p.qself.None? && !p.path.leadingColon && |p.path.segments| == 1 && |p.path.segments[0].args| == 0
  }

  // ---------------------------------------------------------------------------
  // The identifiers `TypePathCollector` gathers, as functions over the type AST.
  // ---------------------------------------------------------------------------

  function TypeIdents(t: Type): set<Ident>
  {
    match t
    case PathType(p) => PathIdents(p)
    case RefType(e) => TypeIdents(e)
    case SliceType(e) => TypeIdents(e)
    case TupleType(es) => TypesIdents(es)
    case LeafType(_) => {}
  }

  function TypesIdents(ts: seq<Type>): set<Ident>
  {
    if ts == [] then {} else TypesIdents(ts[..|ts| - 1]) + TypeIdents(ts[|ts| - 1])
  }

  function QSelfIdents(q: QSelf): set<Ident>
  {
    TypeIdents(q.ty)
  }

  /** A bare path contributes its identifier; every path contributes its nested types'. */
  function PathIdents(p: TypePath): set<Ident>
  {
    (if IsBareIdent(p) then {p.path.segments[0].ident} else {})
    + (if p.qself.Some? then QSelfIdents(p.qself.value) else {})
    + SegmentsIdents(p.path.segments)
  }

  function SegmentsIdents(ss: seq<Segment>): set<Ident>
  {
    if ss == [] then {} else SegmentsIdents(ss[..|ss| - 1]) + SegmentIdents(ss[|ss| - 1])
  }

  function SegmentIdents(s: Segment): set<Ident>
  {
    ArgsIdents(s.args)
  }

  function ArgsIdents(args: seq<GenericArg>): set<Ident>
  {
    if args == [] then {} else ArgsIdents(args[..|args| - 1]) + ArgIdents(args[|args| - 1])
  }

  function ArgIdents(a: GenericArg): set<Ident>
  {
    match a
    case TypeArg(t) => TypeIdents(t)
    case OtherArg(_) => {}
  }

  /** The collector inserts the identifier of a path iff the path is a bare identifier. */
  lemma {:induction false} BarePathIdents(p: TypePath)
    ensures IsBareIdent(p) ==> PathIdents(p) == {p.path.segments[0].ident}
    ensures !IsBareIdent(p) ==>
      PathIdents(p) == (if p.qself.Some? then QSelfIdents(p.qself.value) else {}) + SegmentsIdents(p.path.segments)
  {
    if IsBareIdent(p) {
      var ss := p.path.segments;
      assert ss[..0] == [];
      assert ArgsIdents(ss[0].args) == {};
      assert SegmentsIdents(ss) == {};
    }
  }

  /**
   * `TypePathCollector`: a visitor whose `idents` set grows as it walks a type.
   * Each visit adds exactly the identifiers of the bare paths inside what it visits.
   */
  class TypePathCollector {
    var idents: set<Ident>

    constructor ()
      ensures idents == {}
    {
      idents := {};
    }

    method VisitType(t: Type)
      modifies this
      ensures idents == old(idents) + TypeIdents(t)
      decreases t, 1
    {
      match t
      case PathType(p) => VisitTypePath(p);
      case RefType(e) => VisitType(e);
      case SliceType(e) => VisitType(e);
      case TupleType(es) =>
        var i := 0;
        while i < |es|
          invariant 0 <= i <= |es|
          invariant idents == old(idents) + TypesIdents(es[..i])
        {
          assert es[..i + 1][..i] == es[..i];
          VisitType(es[i]);
          i := i + 1;
        }
        assert es[..|es|] == es;
      case LeafType(_) =>
    }

    /** `visit_type_path`: insert a bare identifier, then always go on into the nested types. */
    method VisitTypePath(p: TypePath)
      modifies this
      ensures idents == old(idents) + PathIdents(p)
      decreases p, 1
    {
      if p.qself.None? && !p.path.leadingColon && |p.path.segments| == 1 && |p.path.segments[0].args| == 0 {
        idents := idents + {p.path.segments[0].ident};
      }
      if p.qself.Some? {
        VisitType(p.qself.value.ty);
      }
      var ss := p.path.segments;
      var i := 0;
      while i < |ss|
        invariant 0 <= i <= |ss|
        invariant idents == old(idents) + (if IsBareIdent(p) then {p.path.segments[0].ident} else {})
                            + (if p.qself.Some? then QSelfIdents(p.qself.value) else {})
                            + SegmentsIdents(ss[..i])
      {
        assert ss[..i + 1][..i] == ss[..i];
        VisitSegment(ss[i]);
        i := i + 1;
      }
      assert ss[..|ss|] == ss;
    }

    method VisitSegment(s: Segment)
      modifies this
      ensures idents == old(idents) + SegmentIdents(s)
      decreases s, 1
    {
      var args := s.args;
      var i := 0;
      while i < |args|
        invariant 0 <= i <= |args|
        invariant idents == old(idents) + ArgsIdents(args[..i])
      {
        assert args[..i + 1][..i] == args[..i];
        VisitArg(args[i]);
        i := i + 1;
      }
      assert args[..|args|] == args;
    }

    method VisitArg(a: GenericArg)
      modifies this
      ensures idents == old(idents) + ArgIdents(a)
      decreases a, 1
    {
      match a
      case TypeArg(t) => VisitType(t);
      case OtherArg(_) =>
    }
  }

  /** Runs a fresh collector over a type and returns what it gathered. */
  method CollectIdents(t: Type) returns (idents: set<Ident>)
    ensures idents == TypeIdents(t)
  {
    var c := new TypePathCollector();
    c.VisitType(t);
    idents := c.idents;
  }

  // ---------------------------------------------------------------------------
  // `TypePathReplacer`: a fold that renames bare identifiers found in `m`.
  // ---------------------------------------------------------------------------

  function FoldType(t: Type, m: map<Ident, Ident>): Type
  {
    match t
    case PathType(p) => PathType(FoldTypePath(p, m))
    case RefType(e) => RefType(FoldType(e, m))
    case SliceType(e) => SliceType(FoldType(e, m))
    case TupleType(es) => TupleType(FoldTypes(es, m))
    case LeafType(_) => t
  }

  function FoldTypes(ts: seq<Type>, m: map<Ident, Ident>): (r: seq<Type>)
    ensures |r| == |ts|
  {
    if ts == [] then [] else FoldTypes(ts[..|ts| - 1], m) + [FoldType(ts[|ts| - 1], m)]
  }

  function FoldQSelf(q: QSelf, m: map<Ident, Ident>): QSelf
  {
    QSelf(FoldType(q.ty, m), q.position)
  }

  /**
   * `fold_type_path`: a bare identifier that is a key of `m` has that one identifier
   * replaced; any other path is rebuilt from its folded parts.
   */
  function FoldTypePath(p: TypePath, m: map<Ident, Ident>): TypePath
  {
    if IsBareIdent(p) && p.path.segments[0].ident in m then
      var s := p.path.segments[0];
      p.(path := p.path.(segments := [s.(ident := m[s.ident])]))
    else
      TypePath(
        if p.qself.Some? then Some(FoldQSelf(p.qself.value, m)) else None,
        Path(p.path.leadingColon, FoldSegments(p.path.segments, m)))
  }

  function FoldSegments(ss: seq<Segment>, m: map<Ident, Ident>): (r: seq<Segment>)
    ensures |r| == |ss|
  {
    if ss == [] then [] else FoldSegments(ss[..|ss| - 1], m) + [FoldSegment(ss[|ss| - 1], m)]
  }

  function FoldSegment(s: Segment, m: map<Ident, Ident>): (r: Segment)
    ensures r.ident == s.ident && |r.args| == |s.args|
  {
    Segment(s.ident, FoldArgs(s.args, m))
  }

  function FoldArgs(args: seq<GenericArg>, m: map<Ident, Ident>): (r: seq<GenericArg>)
    ensures |r| == |args|
  {
    if args == [] then [] else FoldArgs(args[..|args| - 1], m) + [FoldArg(args[|args| - 1], m)]
  }

  function FoldArg(a: GenericArg, m: map<Ident, Ident>): GenericArg
  {
    match a
    case TypeArg(t) => TypeArg(FoldType(t, m))
    case OtherArg(_) => a
  }

  /** Where `m` sends an identifier; identifiers that are not keys stay as they are. */
  function RenameIdent(x: Ident, m: map<Ident, Ident>): Ident
  {
    if x in m then m[x] else x
  }

  function RenameIdents(s: set<Ident>, m: map<Ident, Ident>): set<Ident>
  {
    set x | x in s :: RenameIdent(x, m)
  }

  /** A bare identifier that is a key of `m` changes only that identifier. */
  lemma FoldBarePath(p: TypePath, m: map<Ident, Ident>)
    requires IsBareIdent(p) && p.path.segments[0].ident in m
    ensures FoldTypePath(p, m).qself == p.qself
    ensures FoldTypePath(p, m).path.leadingColon == p.path.leadingColon
    ensures FoldTypePath(p, m).path.segments == [p.path.segments[0].(ident := m[p.path.segments[0].ident])]
    ensures IsBareIdent(FoldTypePath(p, m))
  {
  }

  // With an empty map the fold gives every type back unchanged.

  lemma {:induction false} FoldTypeEmpty(t: Type)
    ensures FoldType(t, map[]) == t
    decreases t, 1
  {
    match t
    case PathType(p) => FoldTypePathEmpty(p);
    case RefType(e) => FoldTypeEmpty(e);
    case SliceType(e) => FoldTypeEmpty(e);
    case TupleType(es) => FoldTypesEmpty(es);
    case LeafType(_) =>
  }

  lemma {:induction false} FoldTypesEmpty(ts: seq<Type>)
    ensures FoldTypes(ts, map[]) == ts
    decreases ts, 0
  {
    if ts != [] {
      FoldTypesEmpty(ts[..|ts| - 1]);
      FoldTypeEmpty(ts[|ts| - 1]);
      assert ts == ts[..|ts| - 1] + [ts[|ts| - 1]];
    }
  }

  lemma {:induction false} FoldTypePathEmpty(p: TypePath)
    ensures FoldTypePath(p, map[]) == p
    decreases p, 1
  {
    if p.qself.Some? {
      FoldTypeEmpty(p.qself.value.ty);
    }
    FoldSegmentsEmpty(p.path.segments);
  }

  lemma {:induction false} FoldSegmentsEmpty(ss: seq<Segment>)
    ensures FoldSegments(ss, map[]) == ss
    decreases ss, 0
  {
    if ss != [] {
      FoldSegmentsEmpty(ss[..|ss| - 1]);
      FoldSegmentEmpty(ss[|ss| - 1]);
      assert ss == ss[..|ss| - 1] + [ss[|ss| - 1]];
    }
  }

  lemma {:induction false} FoldSegmentEmpty(s: Segment)
    ensures FoldSegment(s, map[]) == s
    decreases s, 1
  {
    FoldArgsEmpty(s.args);
  }

  lemma {:induction false} FoldArgsEmpty(args: seq<GenericArg>)
    ensures FoldArgs(args, map[]) == args
    decreases args, 0
  {
    if args != [] {
      FoldArgsEmpty(args[..|args| - 1]);
      FoldArgEmpty(args[|args| - 1]);
      assert args == args[..|args| - 1] + [args[|args| - 1]];
    }
  }

  lemma {:induction false} FoldArgEmpty(a: GenericArg)
    ensures FoldArg(a, map[]) == a
    decreases a, 1
  {
    match a
    case TypeArg(t) => FoldTypeEmpty(t);
    case OtherArg(_) =>
  }

  // Collecting after substituting gives the substituted collection: the fold renames
  // exactly the identifiers the collector would have gathered.

  lemma RenameUnion(a: set<Ident>, b: set<Ident>, m: map<Ident, Ident>)
    ensures RenameIdents(a + b, m) == RenameIdents(a, m) + RenameIdents(b, m)
  {
  }

  lemma {:induction false} CollectFoldType(t: Type, m: map<Ident, Ident>)
    ensures TypeIdents(FoldType(t, m)) == RenameIdents(TypeIdents(t), m)
    decreases t, 1
  {
    match t
    case PathType(p) => CollectFoldTypePath(p, m);
    case RefType(e) => CollectFoldType(e, m);
    case SliceType(e) => CollectFoldType(e, m);
    case TupleType(es) => CollectFoldTypes(es, m);
    case LeafType(_) =>
  }

  lemma {:induction false} CollectFoldTypes(ts: seq<Type>, m: map<Ident, Ident>)
    ensures TypesIdents(FoldTypes(ts, m)) == RenameIdents(TypesIdents(ts), m)
    decreases ts, 0
  {
    if ts != [] {
      var pre, last := ts[..|ts| - 1], ts[|ts| - 1];
      var r := FoldTypes(ts, m);
      assert r[..|r| - 1] == FoldTypes(pre, m);
      assert r[|r| - 1] == FoldType(last, m);
      CollectFoldTypes(pre, m);
      CollectFoldType(last, m);
      RenameUnion(TypesIdents(pre), TypeIdents(last), m);
    }
  }

  lemma {:induction false} CollectFoldTypePath(p: TypePath, m: map<Ident, Ident>)
    ensures PathIdents(FoldTypePath(p, m)) == RenameIdents(PathIdents(p), m)
    decreases p, 2
  {
    if IsBareIdent(p) && p.path.segments[0].ident in m {
      BarePathIdents(p);
      BarePathIdents(FoldTypePath(p, m));
    } else {
      CollectFoldRebuiltPath(p, m);
    }
  }

  /** The same for a path the fold rebuilds rather than replaces. */
  lemma {:induction false} CollectFoldRebuiltPath(p: TypePath, m: map<Ident, Ident>)
    requires !(IsBareIdent(p) && p.path.segments[0].ident in m)
    ensures PathIdents(FoldTypePath(p, m)) == RenameIdents(PathIdents(p), m)
    decreases p, 1
  {
    var qs := if p.qself.Some? then QSelfIdents(p.qself.value) else {};
    var own := if IsBareIdent(p) then {p.path.segments[0].ident} else {};
    if p.qself.Some? {
      CollectFoldType(p.qself.value.ty, m);
    }
    CollectFoldSegments(p.path.segments, m);
    RebuiltPathIdents(p, m);
    assert RenameIdents(own, m) == own;
    RenameUnion(own, qs, m);
    RenameUnion(own + qs, SegmentsIdents(p.path.segments), m);
  }

  /** A path that is not replaced keeps its shape, so it stays bare iff it was bare. */
  lemma RebuiltPathIdents(p: TypePath, m: map<Ident, Ident>)
    requires !(IsBareIdent(p) && p.path.segments[0].ident in m)
    ensures var q := FoldTypePath(p, m);
      PathIdents(q) == (if IsBareIdent(p) then {p.path.segments[0].ident} else {})
                       + (if p.qself.Some? then QSelfIdents(FoldQSelf(p.qself.value, m)) else {})
                       + SegmentsIdents(FoldSegments(p.path.segments, m))
  {
    var q := FoldTypePath(p, m);
    assert IsBareIdent(q) <==> IsBareIdent(p);
    if IsBareIdent(p) {
      assert q.path.segments[0] == FoldSegment(p.path.segments[0], m);
    }
  }

  lemma {:induction false} CollectFoldSegments(ss: seq<Segment>, m: map<Ident, Ident>)
    ensures SegmentsIdents(FoldSegments(ss, m)) == RenameIdents(SegmentsIdents(ss), m)
    decreases ss, 0
  {
    if ss != [] {
      var pre, last := ss[..|ss| - 1], ss[|ss| - 1];
      var r := FoldSegments(ss, m);
      assert r[..|r| - 1] == FoldSegments(pre, m);
      assert r[|r| - 1] == FoldSegment(last, m);
      CollectFoldSegments(pre, m);
      CollectFoldArgs(last.args, m);
      RenameUnion(SegmentsIdents(pre), SegmentIdents(last), m);
    }
  }

  lemma {:induction false} CollectFoldArgs(args: seq<GenericArg>, m: map<Ident, Ident>)
    ensures ArgsIdents(FoldArgs(args, m)) == RenameIdents(ArgsIdents(args), m)
    decreases args, 0
  {
    if args != [] {
      var pre, last := args[..|args| - 1], args[|args| - 1];
      var r := FoldArgs(args, m);
      assert r[..|r| - 1] == FoldArgs(pre, m);
      assert r[|r| - 1] == FoldArg(last, m);
      CollectFoldArgs(pre, m);
      CollectFoldArg(last, m);
      RenameUnion(ArgsIdents(pre), ArgIdents(last), m);
    }
  }

  lemma {:induction false} CollectFoldArg(a: GenericArg, m: map<Ident, Ident>)
    ensures ArgIdents(FoldArg(a, m)) == RenameIdents(ArgIdents(a), m)
    decreases a, 1
  {
    match a
    case TypeArg(t) => CollectFoldType(t, m);
    case OtherArg(_) =>
  }
}
